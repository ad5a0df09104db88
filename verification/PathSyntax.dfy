/** Which request paths are accepted (command.c): one pass over the bytes against a definition by segments. */
module PathSyntax {
  import opened Bytes

  const PATH_MAX: nat := 4096
  const SLASH: Byte := 47
  const QUERY: Byte := 63
  const COLON: Byte := 58
  const PERCENT: Byte := 37
  const DOT: Byte := 46
  const HASH: Byte := 35

  function HexValue(b: Byte): int {
    if 48 <= b <= 57 then b - 48
    else if 97 <= b <= 102 then b - 87
    else if 65 <= b <= 70 then b - 55
    else -1
  }

  predicate Printable(b: Byte) { b > 32 && b != 127 && b != HASH }

  // ----- the definition

  /** Percent-decoding (section 2.1 of RFC 3986); None if an escape is malformed. */
  function Decode(s: seq<Byte>): Option<seq<Byte>> {
    if s == [] then Some([])
    else if s[0] != PERCENT then
      var rest := Decode(s[1..]);
      if rest.None? then None else Some([s[0]] + rest.value)
    else if |s| < 3 || HexValue(s[1]) < 0 || HexValue(s[2]) < 0 then None
    else
      var rest := Decode(s[3..]);
      if rest.None? then None else Some([HexValue(s[1]) * 16 + HexValue(s[2])] + rest.value)
  }

  /** The dot segments of section 3.3 of RFC 3986, escaped or not. */
  predicate DotSegment(decoded: seq<Byte>) { decoded == [DOT] || decoded == [DOT, DOT] }

  /** The raw segment that `s` begins with. */
  function Segment(s: seq<Byte>): (n: nat)
    ensures n <= |s|
    ensures forall i :: 0 <= i < n ==> s[i] != SLASH && s[i] != QUERY
    ensures n < |s| ==> s[n] == SLASH || s[n] == QUERY
  {
    if s == [] || s[0] == SLASH || s[0] == QUERY then 0 else 1 + Segment(s[1..])
  }

  /** A segment decodes and, with `before` in front, is no dot segment; the first one of all holds no colon. */
  predicate HeadOk(segment: seq<Byte>, leading: bool, before: seq<Byte>) {
    Decode(segment).Some? && !DotSegment(before + Decode(segment).value) && (leading ==> COLON !in segment)
  }

  /** What follows a segment: nothing, a query that decodes, or more segments. */
  predicate TailOk(rest: seq<Byte>)
    decreases |rest|, 0
  {
    rest == [] || if rest[0] == QUERY then Decode(rest[1..]).Some? else SegmentsOk(rest[1..], false, [])
  }

  predicate SegmentsOk(s: seq<Byte>, leading: bool, before: seq<Byte>)
    decreases |s|, 1
  {
    HeadOk(s[..Segment(s)], leading, before) && TailOk(s[Segment(s)..])
  }

  /** A relative reference without a fragment, without control bytes or spaces, not starting with two slashes. */
  predicate Accepted(s: seq<Byte>) {
    && |s| <= PATH_MAX
    && !(|s| >= 2 && s[0] == SLASH && s[1] == SLASH)
    && (forall i :: 0 <= i < |s| ==> Printable(s[i]))
    && SegmentsOk(s, true, [])
  }

  // ----- one pass

  datatype Scanner = Scanner(query: bool, leading: bool, length: nat, allDots: bool)

  predicate Dotted(c: Scanner) { c.allDots && 1 <= c.length <= 2 }

  function Take(c: Scanner, byte: Byte): Scanner {
    if c.query then c else c.(length := c.length + 1, allDots := c.allDots && byte == DOT)
  }

  /** The loop of `path` from a position on. */
  predicate Scan(s: seq<Byte>, c: Scanner)
    decreases |s|
  {
    if s == [] then c.query || !Dotted(c)
    else if !Printable(s[0]) then false
    else if !c.query && (s[0] == SLASH || s[0] == QUERY) then
      !Dotted(c) && Scan(s[1..], Scanner(s[0] == QUERY, false, 0, true))
    else if !c.query && c.leading && s[0] == COLON then false
    else if s[0] != PERCENT then Scan(s[1..], Take(c, s[0]))
    else
      && |s| >= 3 && HexValue(s[1]) >= 0 && HexValue(s[2]) >= 0
      && Scan(s[3..], Take(c, HexValue(s[1]) * 16 + HexValue(s[2])))
  }

  const START: Scanner := Scanner(false, true, 0, true)

  predicate ScanAccepts(s: seq<Byte>) {
    |s| <= PATH_MAX && !(|s| >= 2 && s[0] == SLASH && s[1] == SLASH) && Scan(s, START)
  }

  // ----- the one pass decides the definition

  ghost predicate AllPrintable(s: seq<Byte>) { forall i :: 0 <= i < |s| ==> Printable(s[i]) }

  lemma HexIsPrintable(b: Byte)
    requires HexValue(b) >= 0
    ensures Printable(b) && b != SLASH && b != QUERY && b != COLON && b != PERCENT
  {
  }

  lemma {:induction false} QueryScan(s: seq<Byte>, c: Scanner)
    requires c.query
    ensures Scan(s, c) <==> AllPrintable(s) && Decode(s).Some?
    decreases |s|
  {
    if s != [] && Printable(s[0]) {
      if s[0] != PERCENT {
        QueryScan(s[1..], c);
        assert s == [s[0]] + s[1..];
      } else if |s| >= 3 && HexValue(s[1]) >= 0 && HexValue(s[2]) >= 0 {
        HexIsPrintable(s[1]);
        HexIsPrintable(s[2]);
        QueryScan(s[3..], c);
        assert s == [s[0], s[1], s[2]] + s[3..];
      }
    }
  }

  /** The scanner's counters describe the decoded part of the segment under way. */
  ghost predicate Describes(c: Scanner, leading: bool, before: seq<Byte>) {
    && !c.query && c.leading == leading && c.length == |before|
    && (c.allDots <==> forall i :: 0 <= i < |before| ==> before[i] == DOT)
  }

  lemma DottedIsDotSegment(c: Scanner, leading: bool, before: seq<Byte>)
    requires Describes(c, leading, before)
    ensures Dotted(c) <==> DotSegment(before)
  {
    if |before| == 1 { assert before == [before[0]]; }
    if |before| == 2 { assert before == [before[0], before[1]]; }
  }

  lemma TakeDescribes(c: Scanner, leading: bool, before: seq<Byte>, byte: Byte)
    requires Describes(c, leading, before)
    ensures Describes(Take(c, byte), leading, before + [byte])
  {
    var more := before + [byte];
    assert more[|before|] == byte;
    if c.allDots && byte == DOT { assert forall i :: 0 <= i < |more| ==> more[i] == DOT; }
    if !c.allDots {
      var i :| 0 <= i < |before| && before[i] != DOT;
      assert more[i] != DOT;
    }
  }

  /** Taking `k` raw bytes that decode to one byte moves that byte into the segment under way. */
  lemma SegmentMoves(s: seq<Byte>, k: nat, byte: Byte, leading: bool, before: seq<Byte>)
    requires 0 < k <= |s| && Segment(s) == k + Segment(s[k..]) && (leading ==> COLON !in s[..k])
    requires var n := Segment(s);
             Decode(s[..n]) == (if Decode(s[k..n]).None? then None else Some([byte] + Decode(s[k..n]).value))
    ensures SegmentsOk(s, leading, before) <==> SegmentsOk(s[k..], leading, before + [byte])
  {
    hide Decode, DotSegment, TailOk;
    var n, t := Segment(s), s[k..];
    var m := n - k;
    assert t[..m] == s[k..n] && s[n..] == t[m..];
    HeadMoves(s[..k], t[..m], s[..n], byte, leading, before);
  }

  lemma HeadMoves(taken: seq<Byte>, rest: seq<Byte>, all: seq<Byte>, byte: Byte, leading: bool, before: seq<Byte>)
    requires all == taken + rest && (leading ==> COLON !in taken)
    requires Decode(all) == (if Decode(rest).None? then None else Some([byte] + Decode(rest).value))
    ensures HeadOk(all, leading, before) <==> HeadOk(rest, leading, before + [byte])
  {
    hide Decode, DotSegment;
    if Decode(rest).Some? { assert before + ([byte] + Decode(rest).value) == (before + [byte]) + Decode(rest).value; }
  }

  lemma PlainMoves(s: seq<Byte>, leading: bool, before: seq<Byte>)
    requires s != [] && s[0] != SLASH && s[0] != QUERY && s[0] != PERCENT && (leading ==> s[0] != COLON)
    ensures SegmentsOk(s, leading, before) <==> SegmentsOk(s[1..], leading, before + [s[0]])
  {
    var n := Segment(s);
    assert s[..n][1..] == s[1..n] && s[..1] == [s[0]];
    SegmentMoves(s, 1, s[0], leading, before);
  }

  lemma EscapeMoves(s: seq<Byte>, leading: bool, before: seq<Byte>)
    requires |s| >= 3 && s[0] == PERCENT && HexValue(s[1]) >= 0 && HexValue(s[2]) >= 0
    ensures SegmentsOk(s, leading, before) <==>
            SegmentsOk(s[3..], leading, before + [HexValue(s[1]) * 16 + HexValue(s[2])])
  {
    SegmentPastEscape(s);
    var n := Segment(s);
    hide Segment, SegmentsOk;
    assert s[..n][0] == s[0] && s[..n][1] == s[1] && s[..n][2] == s[2] && s[..n][3..] == s[3..n];
    DecodePastEscape(s[..n]);
    hide Decode, HexValue;
    SegmentMoves(s, 3, HexValue(s[1]) * 16 + HexValue(s[2]), leading, before);
  }

  lemma SegmentPastEscape(s: seq<Byte>)
    requires |s| >= 3 && s[0] == PERCENT && HexValue(s[1]) >= 0 && HexValue(s[2]) >= 0
    ensures Segment(s) == 3 + Segment(s[3..]) && COLON !in s[..3]
  {
    HexIsPrintable(s[1]);
    HexIsPrintable(s[2]);
    assert s[1..][1..] == s[2..] && s[2..][1..] == s[3..];
    assert Segment(s) == 1 + Segment(s[1..]) && Segment(s[1..]) == 1 + Segment(s[2..]);
    assert s[..3] == [s[0], s[1], s[2]];
  }

  lemma DecodePastEscape(t: seq<Byte>)
    requires |t| >= 3 && t[0] == PERCENT && HexValue(t[1]) >= 0 && HexValue(t[2]) >= 0
    ensures Decode(t) == if Decode(t[3..]).None? then None
                         else Some([HexValue(t[1]) * 16 + HexValue(t[2])] + Decode(t[3..]).value)
  {
    hide HexValue;
  }

  lemma BadEscape(s: seq<Byte>, leading: bool, before: seq<Byte>)
    requires s != [] && s[0] == PERCENT && (|s| < 3 || HexValue(s[1]) < 0 || HexValue(s[2]) < 0)
    ensures !SegmentsOk(s, leading, before)
  {
    var n := Segment(s);
    assert s[..n][0] == PERCENT;
  }

  lemma {:induction false} PathScan(s: seq<Byte>, c: Scanner, leading: bool, before: seq<Byte>)
    requires Describes(c, leading, before)
    ensures Scan(s, c) <==> AllPrintable(s) && SegmentsOk(s, leading, before)
    decreases |s|
  {
    hide SegmentsOk, Decode, Segment, DotSegment, AllPrintable;
    DottedIsDotSegment(c, leading, before);
    if s == [] {
      NothingLeft(leading, before);
    } else {
      PrintableRest(s);
      if Printable(s[0]) {
        if s[0] == SLASH || s[0] == QUERY {
          Separated(s, leading, before);
          if s[0] == QUERY {
            QueryScan(s[1..], Scanner(true, false, 0, true));
          } else {
            PathScan(s[1..], Scanner(false, false, 0, true), false, []);
          }
        } else if leading && s[0] == COLON {
          LeadingColon(s, before);
        } else if s[0] != PERCENT {
          PlainMoves(s, leading, before);
          TakeDescribes(c, leading, before, s[0]);
          PathScan(s[1..], Take(c, s[0]), leading, before + [s[0]]);
        } else if |s| >= 3 && HexValue(s[1]) >= 0 && HexValue(s[2]) >= 0 {
          var byte := HexValue(s[1]) * 16 + HexValue(s[2]);
          EscapeMoves(s, leading, before);
          TakeDescribes(c, leading, before, byte);
          PathScan(s[3..], Take(c, byte), leading, before + [byte]);
          PrintableEscape(s);
        } else {
          BadEscape(s, leading, before);
        }
      }
    }
  }

  lemma NothingLeft(leading: bool, before: seq<Byte>)
    ensures AllPrintable([]) && (SegmentsOk([], leading, before) <==> !DotSegment(before))
  {
    assert before + [] == before;
  }

  lemma PrintableRest(s: seq<Byte>)
    requires s != []
    ensures AllPrintable(s) <==> Printable(s[0]) && AllPrintable(s[1..])
  {
    assert s == [s[0]] + s[1..];
  }

  lemma PrintableEscape(s: seq<Byte>)
    requires |s| >= 3 && HexValue(s[1]) >= 0 && HexValue(s[2]) >= 0
    ensures AllPrintable(s) <==> Printable(s[0]) && AllPrintable(s[3..])
  {
    HexIsPrintable(s[1]);
    HexIsPrintable(s[2]);
    assert s == [s[0], s[1], s[2]] + s[3..];
  }

  lemma LeadingColon(s: seq<Byte>, before: seq<Byte>)
    requires s != [] && s[0] == COLON
    ensures !SegmentsOk(s, true, before)
  {
    assert s[..Segment(s)][0] == COLON;
  }

  lemma Separated(s: seq<Byte>, leading: bool, before: seq<Byte>)
    requires s != [] && (s[0] == SLASH || s[0] == QUERY)
    ensures SegmentsOk(s, leading, before) <==>
              !DotSegment(before) && if s[0] == QUERY then Decode(s[1..]).Some? else SegmentsOk(s[1..], false, [])
  {
    assert s[..0] == [] && before + [] == before && s[0..] == s;
  }

  /** The single pass accepts a path exactly if the definition by segments does. */
  lemma OnePassDecidesTheDefinition(s: seq<Byte>)
    ensures ScanAccepts(s) <==> Accepted(s)
  {
    PathScan(s, START, true, []);
  }

  /** `path`: the loop itself. */
  method Path(data: seq<Byte>) returns (valid: bool)
    ensures valid <==> Accepted(data)
  {
    OnePassDecidesTheDefinition(data);
    hide Accepted;
    if |data| > PATH_MAX || (|data| >= 2 && data[0] == SLASH && data[1] == SLASH) { return false; }
    var index := 0;
    var query, leading, length, allDots := false, true, 0, true;
    assert data[0..] == data;
    while index < |data|
      invariant 0 <= index <= |data| && length >= 0
      invariant Scan(data[index..], Scanner(query, leading, length, allDots)) <==> Scan(data, START)
      decreases |data| - index
    {
      var byte := data[index];
      ghost var rest := data[index..];
      assert rest[0] == byte && rest[1..] == data[index + 1..];
      if !Printable(byte) { return false; }
      if !query && (byte == SLASH || byte == QUERY) {
        if allDots && 1 <= length <= 2 { return false; }
        query, leading, length, allDots := byte == QUERY, false, 0, true;
        index := index + 1;
        continue;
      }
      if !query && leading && byte == COLON { return false; }
      if byte == PERCENT {
        if index + 2 >= |data| || HexValue(data[index + 1]) < 0 || HexValue(data[index + 2]) < 0 { return false; }
        assert rest[1] == data[index + 1] && rest[2] == data[index + 2] && rest[3..] == data[index + 3..];
        byte := HexValue(data[index + 1]) * 16 + HexValue(data[index + 2]);
        index := index + 2;
      }
      if !query { length, allDots := length + 1, allDots && byte == DOT; }
      index := index + 1;
    }
    return query || !allDots || length == 0 || length > 2;
  }
}
