/** Numbers in network byte order. */
module BigEndian {
  import opened Common

  /** 256 to the given power. */
  function Range(width: nat): (r: nat)
    ensures r > 0
  {
    if width == 0 then 1 else 0x100 * Range(width - 1)
  }

  /** The number whose network-order bytes are given. */
  function Number(bytes: Bytes): (n: nat)
  {
    if bytes == [] then 0 else 0x100 * Number(bytes[..|bytes| - 1]) + bytes[|bytes| - 1]
  }

  /** The `width` low bytes of a number in network order. */
  function Digits(n: nat, width: nat): (bytes: Bytes)
    ensures |bytes| == width
  {
    if width == 0 then [] else Digits(n / 0x100, width - 1) + [n % 0x100]
  }

  lemma {:induction false} NumberOfDigits(n: nat, width: nat)
    requires n < Range(width)
    ensures Number(Digits(n, width)) == n
  {
    if width > 0 {
      NumberOfDigits(n / 0x100, width - 1);
      assert Digits(n, width)[..width - 1] == Digits(n / 0x100, width - 1);
    }
  }

  lemma {:induction false} DigitsOfNumber(bytes: Bytes)
    ensures Number(bytes) < Range(|bytes|)
    ensures Digits(Number(bytes), |bytes|) == bytes
  {
    if bytes != [] {
      DigitsOfNumber(bytes[..|bytes| - 1]);
      assert Number(bytes) / 0x100 == Number(bytes[..|bytes| - 1]);
    }
  }
}
