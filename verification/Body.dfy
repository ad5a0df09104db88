/**
 Bodies moved as begin, chunk, end events: the acceptor of body.c and the event sequence the
 worker streams a body as.
 */
module Body {
  import opened Bytes
  import opened Registry
  import Base64

  const BODY_MAX: nat := 1048576

  // ----- hexadecimal digests

  function HexDigit(value: nat): (c: char)
    requires value < 16
  {
    if value < 10 then '0' + value as char else 'a' + (value - 10) as char
  }

  function HexValue(c: char): int {
    if '0' <= c <= '9' then c as int - '0' as int
    else if 'a' <= c <= 'f' then c as int - 'a' as int + 10 else -1
  }

  function Hex(bytes: seq<Byte>): (s: string)
    ensures |s| == 2 * |bytes|
  {
    if bytes == [] then [] else [HexDigit(bytes[0] / 16), HexDigit(bytes[0] % 16)] + Hex(bytes[1..])
  }

  function Unhex(s: string): (r: Option<seq<Byte>>)
    ensures r.Some? ==> |s| == 2 * |r.value|
  {
    if s == [] then Some([])
    else if |s| < 2 || HexValue(s[0]) < 0 || HexValue(s[1]) < 0 then None
    else match Unhex(s[2..])
      case None => None
      case Some(rest) => Some([HexValue(s[0]) * 16 + HexValue(s[1])] + rest)
  }

  lemma {:induction false} HexReadsBack(bytes: seq<Byte>)
    ensures Unhex(Hex(bytes)) == Some(bytes)
  {
    if bytes != [] {
      HexReadsBack(bytes[1..]);
      assert Hex(bytes)[2..] == Hex(bytes[1..]);
      assert bytes == [bytes[0]] + bytes[1..];
    }
  }

  // ----- the acceptor as a value

  /** An upload in progress; `data` is what has arrived so far. */
  datatype Upload = Upload(
    id: string, length: nat, hash: seq<Byte>, data: seq<Byte>,
    active: bool, complete: bool, failed: bool)

  const IDLE: Upload := Upload("", 0, [], [], false, false, false)
  const POISONED: Upload := IDLE.(failed := true)

  predicate Identifier(id: string) {
    1 <= |id| <= 64 && forall i :: 0 <= i < |id| ==> ' ' <= id[i] <= '~'
  }

  function Begin(u: Upload, id: string, length: nat, digest: string, memory: bool): Upload {
    if u.failed || u.active || !Identifier(id) || length > BODY_MAX || |digest| != 64 || Unhex(digest).None? ||
       (length > 0 && !memory) then POISONED
    else u.(id := id, length := length, hash := Unhex(digest).value, active := true)
  }

  function Chunk(u: Upload, id: string, offset: nat, text: string): Upload {
    var decoded := Base64.Decode(text);
    if u.failed || !u.active || u.complete || !Identifier(id) || u.id != id || offset != |u.data| ||
       decoded.None? || |u.data| + |decoded.value| > u.length || |decoded.value| > Base64.CHUNK_MAX
    then POISONED
    else u.(data := u.data + decoded.value)
  }

  function End(sha: Hash, u: Upload, id: string): Upload {
    if u.failed || !u.active || u.complete || !Identifier(id) || u.id != id || |u.data| != u.length ||
       sha(u.data) != u.hash
    then POISONED
    else u.(complete := true)
  }

  /** After a complete body is consumed. Poison outlives it. */
  function Clear(u: Upload): Upload { IDLE.(failed := u.failed) }

  /** `wco_body_data`: what the owner may read. */
  function Exposed(u: Upload): Option<seq<Byte>> {
    if !u.failed && u.active && u.complete then Some(u.data) else None
  }

  datatype Event =
    | BodyBegin(length: nat, digest: string, memory: bool)
    | BodyChunk(offset: nat, text: string)
    | BodyEnd
    | BodyClear

  function Accept(sha: Hash, u: Upload, id: string, e: Event): Upload {
    match e
    case BodyBegin(length, digest, memory) => Begin(u, id, length, digest, memory)
    case BodyChunk(offset, text) => Chunk(u, id, offset, text)
    case BodyEnd => End(sha, u, id)
    case BodyClear => Clear(u)
  }

  function AcceptAll(sha: Hash, u: Upload, events: seq<(string, Event)>): Upload {
    if events == [] then u
    else Accept(sha, AcceptAll(sha, u, events[..|events| - 1]), events[|events| - 1].0, events[|events| - 1].1)
  }

  predicate UploadInv(sha: Hash, u: Upload) {
    && |u.data| <= u.length <= BODY_MAX
    && (u.failed ==> u == POISONED)
    && (!u.active ==> u.data == [] && u.length == 0 && !u.complete)
    && (u.complete ==> |u.data| == u.length && sha(u.data) == u.hash)
  }

  lemma {:induction false} AcceptAllKeepsInv(sha: Hash, events: seq<(string, Event)>)
    ensures UploadInv(sha, AcceptAll(sha, IDLE, events))
  {
    if events != [] { AcceptAllKeepsInv(sha, events[..|events| - 1]); }
  }

  /** Whatever events arrive, data is exposed only in full length and under its announced digest. */
  lemma OnlyVerifiedBodiesAreExposed(sha: Hash, events: seq<(string, Event)>)
    ensures var u := AcceptAll(sha, IDLE, events);
            Exposed(u).Some? ==> |u.data| == u.length <= BODY_MAX && sha(Exposed(u).value) == u.hash
  {
    AcceptAllKeepsInv(sha, events);
  }

  lemma {:induction false} PoisonIsPermanent(sha: Hash, u: Upload, events: seq<(string, Event)>)
    requires u.failed && UploadInv(sha, u)
    ensures AcceptAll(sha, u, events) == POISONED
  {
    if events != [] { PoisonIsPermanent(sha, u, events[..|events| - 1]); }
  }

  // ----- a body as the worker streams it

  /** One streamed frame: where its bytes lie and what they are. */
  datatype Piece =
    | Opening(length: nat, digest: seq<Byte>)
    | Slice(offset: nat, bytes: seq<Byte>)
    | Closing

  function Min(a: nat, b: nat): nat { if a < b then a else b }

  /** Contiguous slices of at most 32768 bytes from `offset` on. */
  function Slices(body: seq<Byte>, offset: nat): seq<Piece>
    requires offset <= |body|
    decreases |body| - offset
  {
    if offset == |body| then []
    else
      var size := Min(32768, |body| - offset);
      [Slice(offset, body[offset..offset + size])] + Slices(body, offset + size)
  }

  function Transfer(sha: Hash, body: seq<Byte>): seq<Piece> {
    [Opening(|body|, sha(body))] + Slices(body, 0) + [Closing]
  }

  lemma {:induction false} SliceCount(body: seq<Byte>, offset: nat)
    requires offset <= |body|
    ensures |Slices(body, offset)| == (|body| - offset + 32767) / 32768
    decreases |body| - offset
  {
    if offset < |body| { SliceCount(body, offset + Min(32768, |body| - offset)); }
  }

  /** The event a piece travels as. */
  function AsEvent(p: Piece): Event {
    match p
    case Opening(length, digest) => BodyBegin(length, Hex(digest), true)
    case Slice(offset, bytes) => BodyChunk(offset, Base64.Encode(bytes))
    case Closing => BodyEnd
  }

  function AsEvents(id: string, pieces: seq<Piece>): (events: seq<(string, Event)>)
    ensures |events| == |pieces|
  {
    if pieces == [] then []
    else AsEvents(id, pieces[..|pieces| - 1]) + [(id, AsEvent(pieces[|pieces| - 1]))]
  }

  lemma AcceptOneMore(sha: Hash, u: Upload, id: string, pieces: seq<Piece>, p: Piece)
    ensures AcceptAll(sha, u, AsEvents(id, pieces + [p]))
         == Accept(sha, AcceptAll(sha, u, AsEvents(id, pieces)), id, AsEvent(p))
  {
    assert (pieces + [p])[..|pieces|] == pieces;
    var events := AsEvents(id, pieces + [p]);
    assert events[..|events| - 1] == AsEvents(id, pieces);
  }

  /** The slices, one after another, fill an upload that stands at their offset. */
  lemma {:induction false} SlicesAreAccepted(sha: Hash, id: string, before: seq<Piece>, body: seq<Byte>, offset: nat)
    requires offset <= |body| <= BODY_MAX && Identifier(id)
    requires var u := AcceptAll(sha, IDLE, AsEvents(id, before));
             u == Upload(id, |body|, sha(body), body[..offset], true, false, false)
    ensures AcceptAll(sha, IDLE, AsEvents(id, before + Slices(body, offset)))
         == Upload(id, |body|, sha(body), body, true, false, false)
    decreases |body| - offset
  {
    hide AcceptAll, AsEvents, Base64.Decode, Base64.Encode, Slices, Chunk;
    if offset == |body| {
      NoSlices(body, before);
      assert body[..offset] == body;
    } else {
      var size := Min(32768, |body| - offset);
      var p := Slice(offset, body[offset..offset + size]);
      AcceptOneMore(sha, IDLE, id, before, p);
      SliceIsTaken(id, body, sha(body), offset, size);
      SlicesAreAccepted(sha, id, before + [p], body, offset + size);
      OneSlice(body, offset, before);
    }
  }

  lemma NoSlices(body: seq<Byte>, before: seq<Piece>)
    ensures before + Slices(body, |body|) == before
  {
  }

  lemma OneSlice(body: seq<Byte>, offset: nat, before: seq<Piece>)
    requires offset < |body|
    ensures var size := Min(32768, |body| - offset);
            before + Slices(body, offset)
            == before + [Slice(offset, body[offset..offset + size])] + Slices(body, offset + size)
  {
  }

  lemma SliceIsTaken(id: string, body: seq<Byte>, hash: seq<Byte>, offset: nat, size: nat)
    requires Identifier(id) && offset + size <= |body| && size <= 32768
    ensures var u := Upload(id, |body|, hash, body[..offset], true, false, false);
            Chunk(u, id, offset, Base64.Encode(body[offset..offset + size])) == u.(data := body[..offset + size])
  {
    hide Base64.Decode, Base64.Encode, Identifier;
    Base64.EncodedDecodes(body[offset..offset + size]);
    assert body[..offset] + body[offset..offset + size] == body[..offset + size];
  }

  /** A streamed body is accepted event by event and exposed byte for byte. */
  lemma TransferIsAccepted(sha: Hash, id: string, body: seq<Byte>)
    requires |body| <= BODY_MAX && Identifier(id)
    ensures Exposed(AcceptAll(sha, IDLE, AsEvents(id, Transfer(sha, body)))) == Some(body)
    ensures |Transfer(sha, body)| == 2 + (|body| + 32767) / 32768
  {
    hide Slices, AcceptAll, Begin, End;
    var opening := Opening(|body|, sha(body));
    OpeningIsTaken(sha, id, body);
    SlicesAreAccepted(sha, id, [opening], body, 0);
    AcceptOneMore(sha, IDLE, id, [opening] + Slices(body, 0), Closing);
    ClosingIsTaken(sha, id, body);
    SliceCount(body, 0);
  }

  lemma OpeningIsTaken(sha: Hash, id: string, body: seq<Byte>)
    requires |body| <= BODY_MAX && Identifier(id)
    ensures AcceptAll(sha, IDLE, AsEvents(id, [Opening(|body|, sha(body))]))
         == Upload(id, |body|, sha(body), body[..0], true, false, false)
  {
    hide Hex, Unhex, Identifier, AcceptAll, AsEvents;
    var opening := Opening(|body|, sha(body));
    AcceptOneMore(sha, IDLE, id, [], opening);
    NothingAccepted(sha, id);
    HexReadsBack(sha(body));
    assert [] + [opening] == [opening] && body[..0] == [];
  }

  lemma NothingAccepted(sha: Hash, id: string)
    ensures AcceptAll(sha, IDLE, AsEvents(id, [])) == IDLE
  {
  }

  lemma ClosingIsTaken(sha: Hash, id: string, body: seq<Byte>)
    requires Identifier(id)
    ensures var u := Upload(id, |body|, sha(body), body, true, false, false);
            End(sha, u, id) == u.(complete := true)
  {
  }
}
