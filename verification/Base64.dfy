/** Canonical padded base64 (sections 3.5 and 4 of RFC 4648) and the decoder of body.c. */
module Base64 {
  import opened Bytes

  const CHUNK_MAX: nat := 32768

  // ----- the standard encoding

  function Letter(value: nat): (c: char)
    requires value < 64
    ensures c != '='
  {
    if value < 26 then 'A' + value as char
    else if value < 52 then 'a' + (value - 26) as char
    else if value < 62 then '0' + (value - 52) as char
    else if value == 62 then '+' else '/'
  }

  /** Up to three bytes make four letters; a short group is padded and its unused bits are zero. */
  function EncodeGroup(bytes: seq<Byte>): (s: string)
    requires 1 <= |bytes| <= 3
    ensures |s| == 4
  {
    var b0 := bytes[0];
    if |bytes| == 1 then [Letter(b0 / 4), Letter(b0 % 4 * 16), '=', '=']
    else
      var b1 := bytes[1];
      if |bytes| == 2 then
        [Letter(b0 / 4), Letter(b0 % 4 * 16 + b1 / 16), Letter(b1 % 16 * 4), '=']
      else
        var b2 := bytes[2];
        [Letter(b0 / 4), Letter(b0 % 4 * 16 + b1 / 16), Letter(b1 % 16 * 4 + b2 / 64), Letter(b2 % 64)]
  }

  function Encode(bytes: seq<Byte>): string {
    if bytes == [] then []
    else if |bytes| <= 3 then EncodeGroup(bytes)
    else EncodeGroup(bytes[..3]) + Encode(bytes[3..])
  }

  // ----- the decoder's view

  /** `digit`: the value of a letter, or -1. */
  function Digit(c: char): (value: int)
    ensures -1 <= value < 64
    ensures value >= 0 ==> Letter(value) == c
    ensures c == '=' ==> value == -1
  {
    if 'A' <= c <= 'Z' then c as int - 'A' as int
    else if 'a' <= c <= 'z' then c as int - 'a' as int + 26
    else if '0' <= c <= '9' then c as int - '0' as int + 52
    else if c == '+' then 62 else if c == '/' then 63 else -1
  }

  lemma LetterHasItsDigit(value: nat)
    requires value < 64
    ensures Digit(Letter(value)) == value
  {
  }

  /** Four characters to at most three bytes; `last` groups may be padded. */
  function DecodeGroup(s: string, last: bool): Option<seq<Byte>>
    requires |s| == 4
  {
    var a, b, c, d := Digit(s[0]), Digit(s[1]), Digit(s[2]), Digit(s[3]);
    if a < 0 || b < 0 then None
    else if last && s[2] == '=' && s[3] == '=' then
      if b % 16 != 0 then None else Some([a * 4 + b / 16])
    else if last && s[3] == '=' then
      if c < 0 || c % 4 != 0 then None else Some([a * 4 + b / 16, b % 16 * 16 + c / 4])
    else if c < 0 || d < 0 then None
    else Some([a * 4 + b / 16, b % 16 * 16 + c / 4, c % 4 * 64 + d])
  }

  function Decode(s: string): Option<seq<Byte>> {
    if s == [] then Some([])
    else if |s| < 4 then None
    else
      var head := DecodeGroup(s[..4], |s| == 4);
      var tail := Decode(s[4..]);
      if head.None? || tail.None? then None else Some(head.value + tail.value)
  }

  lemma GroupDecodes(bytes: seq<Byte>, last: bool)
    requires 1 <= |bytes| <= 3 && (last || |bytes| == 3)
    ensures DecodeGroup(EncodeGroup(bytes), last) == Some(bytes)
  {
    hide EncodeGroup, DecodeGroup;
    if |bytes| == 1 {
      assert bytes == [bytes[0]];
      OneDecodes(bytes[0]);
    } else if |bytes| == 2 {
      assert bytes == [bytes[0], bytes[1]];
      TwoDecode(bytes[0], bytes[1]);
    } else {
      assert bytes == [bytes[0], bytes[1], bytes[2]];
      ThreeDecode(bytes[0], bytes[1], bytes[2], last);
    }
  }

  lemma OneDecodes(b0: Byte)
    ensures DecodeGroup(EncodeGroup([b0]), true) == Some([b0])
  {
    hide Letter, Digit;
    LetterHasItsDigit(b0 / 4);
    LetterHasItsDigit(b0 % 4 * 16);
    Rejoin(b0, 4, 16, 0);
  }

  lemma TwoDecode(b0: Byte, b1: Byte)
    ensures DecodeGroup(EncodeGroup([b0, b1]), true) == Some([b0, b1])
  {
    hide Letter, Digit;
    LetterHasItsDigit(b0 / 4);
    LetterHasItsDigit(b0 % 4 * 16 + b1 / 16);
    LetterHasItsDigit(b1 % 16 * 4);
    Rejoin(b0, 4, 16, b1 / 16);
    Rejoin(b1, 16, 4, 0);
  }

  lemma ThreeDecode(b0: Byte, b1: Byte, b2: Byte, last: bool)
    ensures DecodeGroup(EncodeGroup([b0, b1, b2]), last) == Some([b0, b1, b2])
  {
    hide Letter, Digit;
    LetterHasItsDigit(b0 / 4);
    LetterHasItsDigit(b0 % 4 * 16 + b1 / 16);
    LetterHasItsDigit(b1 % 16 * 4 + b2 / 64);
    LetterHasItsDigit(b2 % 64);
    Rejoin(b0, 4, 16, b1 / 16);
    Rejoin(b1, 16, 4, b2 / 64);
  }

  /** The low part of a byte, moved up by `size` with something below it, comes apart again. */
  lemma Rejoin(byte: Byte, low: nat, size: nat, below: nat)
    requires (low == 4 && size == 16) || (low == 16 && size == 4)
    requires below < size
    ensures (byte % low * size + below) / size == byte % low && (byte % low * size + below) % size == below
    ensures byte / low * low + byte % low == byte
  {
  }

  lemma GroupEncodes(s: string, last: bool)
    requires |s| == 4 && DecodeGroup(s, last).Some?
    ensures var bytes := DecodeGroup(s, last).value;
            1 <= |bytes| <= 3 && (last || |bytes| == 3) && EncodeGroup(bytes) == s
  {
    hide Letter, Digit;
    var a, b, c, d := Digit(s[0]), Digit(s[1]), Digit(s[2]), Digit(s[3]);
    assert s == [s[0], s[1], s[2], s[3]];
    Resplit(a, 4, b, 16);
    if s[2] != '=' || !last { Resplit(b % 16, 16, c, 4); }
    if s[3] != '=' || !last { Resplit(c % 4, 64, d, 64); }
  }

  /** A byte put together from the digit `high` and the top of the digit `next`. */
  lemma Resplit(high: nat, scale: nat, next: nat, size: nat)
    requires next < 64
    requires (scale == 4 && size == 16) || (scale == 16 && size == 4) || (scale == 64 && size == 64)
    ensures size == 64 || (high * scale + next / size) / scale == high
    ensures size == 64 || (high * scale + next / size) % scale == next / size
    ensures size == 64 ==> (high * 64 + next) / 64 == high && (high * 64 + next) % 64 == next
    ensures next / size * size + next % size == next
  {
  }

  lemma {:induction false} EncodedDecodes(bytes: seq<Byte>)
    ensures |Encode(bytes)| == 4 * ((|bytes| + 2) / 3)
    ensures Decode(Encode(bytes)) == Some(bytes)
  {
    hide Encode, Decode;
    if bytes == [] {
      NothingEncodes();
    } else if |bytes| <= 3 {
      LastGroup(bytes);
    } else {
      EncodedDecodes(bytes[3..]);
      GroupThenRest(bytes);
      OneGroupMore(|bytes| - 3);
    }
  }

  lemma NothingEncodes()
    ensures Encode([]) == [] && Decode([]) == Some([])
  {
  }

  lemma OneGroupMore(n: nat)
    ensures 4 + 4 * ((n + 2) / 3) == 4 * ((n + 3 + 2) / 3) && (n > 0 ==> (n + 2) / 3 > 0)
  {
  }

  lemma LastGroup(bytes: seq<Byte>)
    requires 1 <= |bytes| <= 3
    ensures |Encode(bytes)| == 4 == 4 * ((|bytes| + 2) / 3) && Decode(Encode(bytes)) == Some(bytes)
  {
    hide EncodeGroup, DecodeGroup;
    var s := EncodeGroup(bytes);
    assert Encode(bytes) == s;
    hide Encode;
    GroupDecodes(bytes, true);
    OneGroupDecodes(s);
    assert bytes + [] == bytes;
  }

  lemma OneGroupDecodes(s: string)
    requires |s| == 4 && DecodeGroup(s, true).Some?
    ensures Decode(s) == Some(DecodeGroup(s, true).value)
  {
    hide DecodeGroup;
    var group := DecodeGroup(s, true).value;
    assert s[..4] == s && s[4..] == [] && group + [] == group;
    EmptyDecodes();
  }

  lemma GroupThenRest(bytes: seq<Byte>)
    requires |bytes| > 3 && Encode(bytes[3..]) != [] && Decode(Encode(bytes[3..])) == Some(bytes[3..])
    ensures |Encode(bytes)| == 4 + |Encode(bytes[3..])| && Decode(Encode(bytes)) == Some(bytes)
  {
    hide EncodeGroup, DecodeGroup;
    var s, head, tail := Encode(bytes), EncodeGroup(bytes[..3]), Encode(bytes[3..]);
    assert s == head + tail;
    hide Encode;
    GroupDecodes(bytes[..3], false);
    GroupThenDecodes(head, tail);
    assert bytes == bytes[..3] + bytes[3..];
  }

  lemma GroupThenDecodes(head: string, tail: string)
    requires |head| == 4 && tail != [] && DecodeGroup(head, false).Some? && Decode(tail).Some?
    ensures Decode(head + tail) == Some(DecodeGroup(head, false).value + Decode(tail).value)
  {
    hide DecodeGroup;
    var s := head + tail;
    assert s[..4] == head && s[4..] == tail;
  }

  lemma EmptyDecodes()
    ensures Decode([]) == Some([])
  {
  }

  lemma {:induction false} DecodedEncodes(s: string)
    requires Decode(s).Some?
    ensures Encode(Decode(s).value) == s
    ensures |s| % 4 == 0
  {
    hide EncodeGroup, DecodeGroup;
    if s != [] {
      DecodedEncodes(s[4..]);
      GroupEncodes(s[..4], |s| == 4);
      var head, tail := DecodeGroup(s[..4], |s| == 4).value, Decode(s[4..]).value;
      assert s == s[..4] + s[4..];
      if |s| == 4 {
        assert s[4..] == [];
        assert head + tail == head;
      } else {
        assert tail != [];
        assert (head + tail)[..3] == head && (head + tail)[3..] == tail;
      }
    }
  }

  /** Exactly the canonical encodings decode, and both directions undo each other. */
  lemma DecodesExactlyTheCanonical(s: string, bytes: seq<Byte>)
    ensures Decode(s) == Some(bytes) <==> s == Encode(bytes)
  {
    EncodedDecodes(bytes);
    if Decode(s).Some? { DecodedEncodes(s); }
  }

  // ----- the in-place decoder

  function PaddingOf(s: string): nat {
    (if |s| > 0 && s[|s| - 1] == '=' then 1 else 0) + (if |s| > 1 && s[|s| - 2] == '=' then 1 else 0)
  }

  lemma {:induction false} DecodedLength(s: string)
    requires Decode(s).Some?
    ensures |Decode(s).value| == |s| / 4 * 3 - PaddingOf(s)
  {
    hide DecodeGroup, PaddingOf;
    if s == [] {
      NoPadding();
    } else if |s| == 4 {
      assert s[..4] == s && s[4..] == [];
      EmptyDecodes();
      GroupLength(s);
    } else {
      DecodedLength(s[4..]);
      LastTwoStay(s);
      GroupSize(s[..4], false);
    }
  }

  lemma NoPadding()
    ensures PaddingOf([]) == 0
  {
  }

  lemma GroupLength(s: string)
    requires |s| == 4 && DecodeGroup(s, true).Some?
    ensures |DecodeGroup(s, true).value| == 3 - PaddingOf(s)
  {
    hide Letter;
  }

  lemma LastTwoStay(s: string)
    requires |s| >= 6
    ensures PaddingOf(s[4..]) == PaddingOf(s)
  {
  }

  /** One turn of the validation loop. */
  predicate GroupAccepted(s: string, offset: nat, padding: nat)
    requires offset + 4 <= |s|
  {
    var a, b, c, d := Digit(s[offset]), Digit(s[offset + 1]), Digit(s[offset + 2]), Digit(s[offset + 3]);
    var last := offset + 4 == |s|;
    if a < 0 || b < 0 then false
    else if last && padding == 2 then s[offset + 2] == '=' && s[offset + 3] == '=' && b % 16 == 0
    else if last && padding == 1 then c >= 0 && s[offset + 3] == '=' && c % 4 == 0
    else c >= 0 && d >= 0
  }

  lemma GroupAcceptedIsDecodable(s: string, offset: nat)
    requires offset + 4 <= |s|
    ensures GroupAccepted(s, offset, PaddingOf(s))
            <==> DecodeGroup(s[offset..offset + 4], offset + 4 == |s|).Some?
  {
  }

  lemma DecodeStep(s: string, offset: nat)
    requires offset + 4 <= |s|
    ensures Decode(s[offset..]).Some? <==>
              DecodeGroup(s[offset..offset + 4], offset + 4 == |s|).Some? && Decode(s[offset + 4..]).Some?
    ensures Decode(s[offset..]).Some? ==>
              Decode(s[offset..]).value
              == DecodeGroup(s[offset..offset + 4], offset + 4 == |s|).value + Decode(s[offset + 4..]).value
  {
    hide DecodeGroup;
    assert s[offset..][..4] == s[offset..offset + 4];
    assert s[offset..][4..] == s[offset + 4..];
  }

  lemma {:induction false} NeedsWholeGroups(s: string)
    requires |s| % 4 != 0
    ensures Decode(s).None?
  {
    if |s| >= 4 { NeedsWholeGroups(s[4..]); }
  }

  method Validate(input: string, padding: nat) returns (valid: bool)
    requires |input| % 4 == 0 && padding == PaddingOf(input)
    ensures valid <==> Decode(input).Some?
  {
    hide Decode, DecodeGroup, GroupAccepted;
    var offset: nat := 0;
    assert input[0..] == input;
    while offset < |input|
      invariant offset <= |input| && offset % 4 == 0
      invariant Decode(input).Some? <==> Decode(input[offset..]).Some?
    {
      GroupAcceptedIsDecodable(input, offset);
      DecodeStep(input, offset);
      if !GroupAccepted(input, offset, padding) { return false; }
      offset := offset + 4;
    }
    assert input[offset..] == [];
    EmptyDecodes();
    valid := true;
  }

  /** The bytes one group contributes, as the writing loop computes them: stop when all are out. */
  method GroupBytes(input: string, offset: nat, room: nat) returns (group: seq<Byte>)
    requires offset + 4 <= |input| && room > 0
    requires var decoded := DecodeGroup(input[offset..offset + 4], offset + 4 == |input|);
             decoded.Some? && |decoded.value| == if room < 3 then room else 3
    ensures group == DecodeGroup(input[offset..offset + 4], offset + 4 == |input|).value
  {
    var a, b := Digit(input[offset]), Digit(input[offset + 1]);
    var c := if input[offset + 2] == '=' then 0 else Digit(input[offset + 2]);
    var d := if input[offset + 3] == '=' then 0 else Digit(input[offset + 3]);
    group := [a * 4 + b / 16];
    if room > 1 { group := group + [b % 16 * 16 + c / 4]; }
    if room > 2 { group := group + [c % 4 * 64 + d]; }
  }

  lemma GroupSize(s: string, last: bool)
    requires |s| == 4 && DecodeGroup(s, last).Some?
    ensures 1 <= |DecodeGroup(s, last).value| <= 3
    ensures !last ==> |DecodeGroup(s, last).value| == 3
  {
  }

  /**
   `wco_body_base64` on the string: accepts exactly the canonical encodings of byte strings that
   fit the capacity and 32768 bytes, writes those bytes, and on refusal writes nothing.
   */
  method DecodeInto(input: string, output: array<Byte>, start: nat, capacity: nat)
    returns (accepted: bool, length: nat)
    requires start + capacity <= output.Length
    modifies output
    ensures accepted <==> Decode(input).Some? && |Decode(input).value| <= capacity && |Decode(input).value| <= CHUNK_MAX
    ensures accepted ==>
              && length == |Decode(input).value|
              && output[..] == old(output[..start]) + Decode(input).value + old(output[start + length..])
    ensures !accepted ==> length == 0 && output[..] == old(output[..])
  {
    hide Decode, DecodeGroup;
    length := 0;
    if |input| % 4 != 0 { NeedsWholeGroups(input); return false, 0; }
    if |input| > 4 * ((32768 + 2) / 3) {
      if Decode(input).Some? { DecodedLength(input); }
      return false, 0;
    }
    var padding := PaddingOf(input);
    var decoded := |input| / 4 * 3 - padding;
    if decoded > capacity || decoded > CHUNK_MAX {
      if Decode(input).Some? { DecodedLength(input); }
      return false, 0;
    }
    accepted := Validate(input, padding);
    if !accepted { return false, 0; }
    DecodedLength(input);
    length := decoded;
    WriteGroups(input, output, start, decoded);
  }

  /** The writing loop. */
  method WriteGroups(input: string, output: array<Byte>, start: nat, decoded: nat)
    requires Decode(input).Some? && decoded == |Decode(input).value| && start + decoded <= output.Length
    modifies output
    ensures output[..] == old(output[..start]) + Decode(input).value + old(output[start + |Decode(input).value|..])
  {
    hide Decode, DecodeGroup, Encode;
    ghost var bytes, done: seq<Byte> := Decode(input).value, [];
    var offset: nat, written: nat := 0, 0;
    assert input[0..] == input;
    DecodedEncodes(input);
    while offset < |input|
      invariant offset <= |input| && offset % 4 == 0
      invariant Decode(input[offset..]).Some? && bytes == done + Decode(input[offset..]).value
      invariant written == |done| <= decoded
      invariant output[..start] == old(output[..start])
      invariant output[start..start + written] == done
      invariant output[start + written..] == old(output[start + written..])
    {
      NextGroup(input, offset, decoded - written);
      ghost var rest := Decode(input[offset..]).value;
      var group := GroupBytes(input, offset, decoded - written);
      written := WriteGroup(output, start, written, group);
      MoveAcross(bytes, done, group, Decode(input[offset + 4..]).value, rest);
      done := done + group;
      offset := offset + 4;
    }
    assert input[offset..] == [];
    EmptyDecodes();
    assert bytes == done;
    InThree(output[..], start, written);
  }

  lemma InThree<T>(s: seq<T>, start: nat, size: nat)
    requires start + size <= |s|
    ensures s == s[..start] + s[start..start + size] + s[start + size..]
  {
  }

  lemma MoveAcross<T>(all: seq<T>, done: seq<T>, group: seq<T>, tail: seq<T>, rest: seq<T>)
    requires all == done + rest && rest == group + tail
    ensures all == done + group + tail
  {
  }

  /** What is left begins with the next group, which is all of it exactly at the end. */
  lemma NextGroup(s: string, offset: nat, left: nat)
    requires offset + 4 <= |s| && Decode(s[offset..]).Some? && left == |Decode(s[offset..]).value|
    ensures DecodeGroup(s[offset..offset + 4], offset + 4 == |s|).Some? && Decode(s[offset + 4..]).Some?
    ensures var group := DecodeGroup(s[offset..offset + 4], offset + 4 == |s|).value;
            && Decode(s[offset..]).value == group + Decode(s[offset + 4..]).value
            && 1 <= |group| <= 3 && |group| <= left
            && (offset + 4 == |s| ==> |group| == left) && (offset + 4 != |s| ==> |group| == 3)
  {
    hide Decode, DecodeGroup;
    DecodeStep(s, offset);
    GroupSize(s[offset..offset + 4], offset + 4 == |s|);
    EmptyDecodes();
    assert offset + 4 == |s| ==> s[offset + 4..] == [];
  }

  method WriteGroup(output: array<Byte>, start: nat, written: nat, group: seq<Byte>) returns (next: nat)
    requires start + written + |group| <= output.Length
    modifies output
    ensures next == written + |group|
    ensures output[..start] == old(output[..start])
    ensures output[start..start + next] == old(output[start..start + written]) + group
    ensures output[start + next..] == old(output[start + next..])
  {
    next := written;
    for i := 0 to |group|
      invariant next == written + i
      invariant output[..start] == old(output[..start])
      invariant output[start..start + next] == old(output[start..start + written]) + group[..i]
      invariant output[start + next..] == old(output[start + next..])
    {
      output[start + next] := group[i];
      next := next + 1;
    }
  }
}
