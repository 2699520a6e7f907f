/** Application-carrying RSocket frames, their flag bits and their serialized size. */
module Frames {
  import opened BigEndian
  import opened Common

  /** The ten flag bits: I, M, F, C, N and the five a frame type may define further. */
  datatype Flags = Flags(ignore: bool, metadata: bool, follows: bool, complete: bool, next: bool, extra: nat)

  function Bit(raised: bool, weight: nat): nat
  {
    if raised then weight else 0
  }

  /** The flags as they appear in the low ten bits of the header word. */
  function Word(flags: Flags): nat
  {
    Bit(flags.ignore, 512) + Bit(flags.metadata, 256) + Bit(flags.follows, 128)
    + Bit(flags.complete, 64) + Bit(flags.next, 32) + flags.extra % 32
  }

  /** `Other` stands for every frame type that must not be fragmented. */
  datatype Kind = RequestResponse | RequestFnf | RequestStream | RequestChannel | Payload | Other(code: nat)
  {
    predicate IsFragmentable() { !Other? }

    predicate IsRequest() { IsFragmentable() && !Payload? }

    predicate HasRequestN() { RequestStream? || RequestChannel? }
  }

  /** Bodies are encoded bytes; an absent body is not an empty one. */
  datatype Frame = Frame(
    kind: Kind, streamId: nat, flags: Flags, requestN: nat,
    metadata: Option<Bytes>, data: Option<Bytes>)

  predicate HasMetadata(f: Frame) { f.flags.metadata }

  function BytesOf(part: Option<Bytes>): Bytes
  {
    if part.Some? then part.value else []
  }

  /** Every constructor raises the METADATA flag of a frame that carries metadata. */
  function Make(kind: Kind, streamId: nat, flags: Flags, requestN: nat,
                metadata: Option<Bytes>, data: Option<Bytes>): (f: Frame)
    ensures Constructed(f)
  {
    Frame(kind, streamId, if metadata.Some? then flags.(metadata := true) else flags,
          if kind.HasRequestN() then requestN else 0, metadata, data)
  }

  predicate Constructed(f: Frame)
  {
    && (f.metadata.Some? ==> HasMetadata(f))
    && (!f.kind.HasRequestN() ==> f.requestN == 0)
  }

  /** What the peer decodes: sections are present as the flags say, data always is. */
  function Received(f: Frame): (g: Frame)
    ensures Constructed(f) ==> Constructed(g)
  {
    f.(metadata := if HasMetadata(f) then Some(BytesOf(f.metadata)) else None,
       data := Some(BytesOf(f.data)))
  }

  function TypeCode(kind: Kind): nat
  {
    match kind
    case RequestResponse => 4
    case RequestFnf => 5
    case RequestStream => 6
    case RequestChannel => 7
    case Payload => 10
    case Other(code) => code
  }

  /** Stream id, type and flags, initial request count, length-prefixed metadata, data. */
  function Serialize(f: Frame): Bytes
  {
    Digits(f.streamId, 4)
    + Digits(TypeCode(f.kind) * 0x400 + Word(f.flags), 2)
    + (if f.kind.HasRequestN() then Digits(f.requestN, 4) else [])
    + (if f.metadata.Some? then Digits(|f.metadata.value|, 3) + f.metadata.value
       else if HasMetadata(f) then Digits(0, 3) else [])
    + BytesOf(f.data)
  }

  function ReceivedAll(frames: seq<Frame>): seq<Frame>
  {
    if frames == [] then [] else [Received(frames[0])] + ReceivedAll(frames[1..])
  }
}
