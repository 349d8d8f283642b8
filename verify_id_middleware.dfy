/** `VerifyIdMiddleware`: an id path parameter must be a version-4 UUID in its
    textual form (section 3 of RFC 4122: 8-4-4-4-12 hex digits; version
    nibble 4, section 4.1.3; variant nibble 8, 9, a or b, section 4.1.1).
    The check is the anchored, case-insensitive regular expression
    `^[0-9A-F]{8}-[0-9A-F]{4}-[4][0-9A-F]{3}-[89AB][0-9A-F]{3}-[0-9A-F]{12}$`,
    modelled as a sequence of bracket classes with fixed repetition counts. */
module VerifyIdMiddleware {
  import opened Common

  /** `lo-hi` inside a bracket class (a single character is `c-c`). */
  datatype Range = Range(lo: char, hi: char)

  /** A bracket class followed by `{count}`. */
  datatype Piece = Piece(ranges: seq<Range>, count: nat)

  function Upper(c: char): char
  {
    if 'a' <= c <= 'z' then (c as int - 32) as char else c
  }

  function Lower(c: char): char
  {
    if 'A' <= c <= 'Z' then (c as int + 32) as char else c
  }

  predicate InClass(ranges: seq<Range>, c: char)
  {
    exists k :: 0 <= k < |ranges| && ranges[k].lo <= c <= ranges[k].hi
  }

  /** Membership under the `i` flag: `c` matches when its upper- or
      lower-case form is in the class. Characters outside ASCII never fold
      onto ASCII ones, and every class here is ASCII. */
  predicate ClassMatches(ranges: seq<Range>, c: char)
  {
    InClass(ranges, Upper(c)) || InClass(ranges, Lower(c))
  }

  /** The whole string matches the pieces, one after the other. */
  predicate MatchPieces(p: seq<Piece>, s: string)
    decreases |p|
  {
    if p == [] then s == []
    else
      |s| >= p[0].count &&
      (forall i :: 0 <= i < p[0].count ==> ClassMatches(p[0].ranges, s[i])) &&
      MatchPieces(p[1..], s[p[0].count..])
  }

  const HEX: seq<Range> := [Range('0', '9'), Range('A', 'F')]
  const DASH: seq<Range> := [Range('-', '-')]
  const VERSION: seq<Range> := [Range('4', '4')]
  const VARIANT: seq<Range> := [Range('8', '8'), Range('9', '9'), Range('A', 'A'), Range('B', 'B')]

  const UUID_V4: seq<Piece> := [
    Piece(HEX, 8), Piece(DASH, 1), Piece(HEX, 4), Piece(DASH, 1),
    Piece(VERSION, 1), Piece(HEX, 3), Piece(DASH, 1),
    Piece(VARIANT, 1), Piece(HEX, 3), Piece(DASH, 1), Piece(HEX, 12)
  ]

  /** `isValidUUID.test(id)`: true exactly for the version-4 UUID texts. */
  function IsValidUuid(id: string): (ok: bool)
    ensures ok <==> IsUuidV4Text(id)
  {
    UuidPatternIsRfc4122V4(id);
    MatchPieces(UUID_V4, id)
  }

  // ---- The layout of RFC 4122, stated position by position ----

  predicate IsHexDigit(c: char)
  {
    '0' <= c <= '9' || 'a' <= c <= 'f' || 'A' <= c <= 'F'
  }

  predicate IsDashPosition(i: int)
  {
    i == 8 || i == 13 || i == 18 || i == 23
  }

  predicate PositionOk(i: int, c: char)
  {
    if IsDashPosition(i) then c == '-'
    else if i == 14 then c == '4'
    else if i == 19 then c in {'8', '9', 'a', 'b', 'A', 'B'}
    else IsHexDigit(c)
  }

  predicate IsUuidV4Text(s: string)
  {
    |s| == 36 && forall i :: 0 <= i < |s| ==> PositionOk(i, s[i])
  }

  // ---- From the pieces to positions ----

  function TotalCount(p: seq<Piece>): nat
  {
    if p == [] then 0 else p[0].count + TotalCount(p[1..])
  }

  /** The class that position `i` of a match must satisfy. */
  function ClassAt(p: seq<Piece>, i: nat): seq<Range>
    requires i < TotalCount(p)
  {
    if i < p[0].count then p[0].ranges else ClassAt(p[1..], i - p[0].count)
  }

  /** Matching a sequence of pieces is matching, position by position, the
      class each position falls in, over exactly the total length. */
  lemma {:induction false} MatchPiecesPositional(p: seq<Piece>, s: string)
    ensures MatchPieces(p, s) <==>
      |s| == TotalCount(p) && forall i :: 0 <= i < |s| ==> ClassMatches(ClassAt(p, i), s[i])
  {
    if p != [] {
      var n := p[0].count;
      if |s| >= n {
        MatchPiecesPositional(p[1..], s[n..]);
        if |s| == TotalCount(p) {
          forall i | n <= i < |s|
            ensures ClassAt(p, i) == ClassAt(p[1..], i - n) && s[i] == s[n..][i - n]
          {
          }
        }
      }
    }
  }

  /** The reference class of each position of a version-4 UUID. */
  function UuidClassAt(i: nat): seq<Range>
  {
    if IsDashPosition(i) then DASH
    else if i == 14 then VERSION
    else if i == 19 then VARIANT
    else HEX
  }

  /** The pieces of UUID_V4 cover 36 positions, each with the class the
      reference layout gives it (unrolled piece by piece). */
  lemma UuidPieces()
    ensures TotalCount(UUID_V4) == 36
    ensures forall i :: 0 <= i < 36 ==> ClassAt(UUID_V4, i) == UuidClassAt(i)
  {
    var p0 := UUID_V4;
    var p1 := p0[1..];
    var p2 := p1[1..];
    var p3 := p2[1..];
    var p4 := p3[1..];
    var p5 := p4[1..];
    var p6 := p5[1..];
    var p7 := p6[1..];
    var p8 := p7[1..];
    var p9 := p8[1..];
    var p10 := p9[1..];
    assert p10[1..] == [];
    assert TotalCount(p10) == 12;
    assert TotalCount(p9) == 13;
    assert TotalCount(p8) == 16;
    assert TotalCount(p7) == 17;
    assert TotalCount(p6) == 18;
    assert TotalCount(p5) == 21;
    assert TotalCount(p4) == 22;
    assert TotalCount(p3) == 23;
    assert TotalCount(p2) == 27;
    assert TotalCount(p1) == 28;
    assert TotalCount(p0) == 36;
    forall i | 0 <= i < 36
      ensures ClassAt(UUID_V4, i) == UuidClassAt(i)
    {
      if i >= 8 {
        assert ClassAt(p0, i) == ClassAt(p1, i - 8);
        if i >= 9 {
          assert ClassAt(p1, i - 8) == ClassAt(p2, i - 9);
          if i >= 13 {
            assert ClassAt(p2, i - 9) == ClassAt(p3, i - 13);
            if i >= 14 {
              assert ClassAt(p3, i - 13) == ClassAt(p4, i - 14);
              if i >= 15 {
                assert ClassAt(p4, i - 14) == ClassAt(p5, i - 15);
                if i >= 18 {
                  assert ClassAt(p5, i - 15) == ClassAt(p6, i - 18);
                  if i >= 19 {
                    assert ClassAt(p6, i - 18) == ClassAt(p7, i - 19);
                    if i >= 20 {
                      assert ClassAt(p7, i - 19) == ClassAt(p8, i - 20);
                      if i >= 23 {
                        assert ClassAt(p8, i - 20) == ClassAt(p9, i - 23);
                        if i >= 24 {
                          assert ClassAt(p9, i - 23) == ClassAt(p10, i - 24);
                        }
                      }
                    }
                  }
                }
              }
            }
          }
        }
      }
    }
  }

  lemma ClassMatchesUuid(i: nat, c: char)
    ensures ClassMatches(UuidClassAt(i), c) <==> PositionOk(i, c)
  {
    if IsDashPosition(i) {
      assert ClassMatches(DASH, c) <==> c == '-' by {
        if c == '-' { assert DASH[0].lo <= Upper(c) <= DASH[0].hi; }
      }
    } else if i == 14 {
      assert ClassMatches(VERSION, c) <==> c == '4' by {
        if c == '4' { assert VERSION[0].lo <= Upper(c) <= VERSION[0].hi; }
      }
    } else if i == 19 {
      if c in {'8', '9', 'a', 'b', 'A', 'B'} {
        var k := if c == '8' then 0 else if c == '9' then 1 else if c in {'a', 'A'} then 2 else 3;
        assert VARIANT[k].lo <= Upper(c) <= VARIANT[k].hi;
      }
    } else {
      if IsHexDigit(c) {
        var k := if '0' <= c <= '9' then 0 else 1;
        assert HEX[k].lo <= Upper(c) <= HEX[k].hi;
      }
    }
  }

  /** The regular expression accepts exactly the version-4 UUID texts. */
  lemma UuidPatternIsRfc4122V4(s: string)
    ensures MatchPieces(UUID_V4, s) <==> IsUuidV4Text(s)
  {
    MatchPiecesPositional(UUID_V4, s);
    UuidPieces();
    forall i | 0 <= i < |s| && |s| == 36
      ensures ClassMatches(ClassAt(UUID_V4, i), s[i]) <==> PositionOk(i, s[i])
    {
      ClassMatchesUuid(i, s[i]);
    }
  }

  /** What an accepted id looks like. */
  lemma AcceptedIdLayout(s: string)
    requires IsValidUuid(s)
    ensures |s| == 36
    ensures s[8] == '-' && s[13] == '-' && s[18] == '-' && s[23] == '-'
    ensures s[14] == '4'
    ensures s[19] in {'8', '9', 'a', 'b', 'A', 'B'}
    ensures forall i :: 0 <= i < 36 && !IsDashPosition(i) ==> IsHexDigit(s[i])
  {
    assert PositionOk(8, s[8]) && PositionOk(13, s[13]) && PositionOk(18, s[18]) && PositionOk(23, s[23]);
    assert PositionOk(14, s[14]) && PositionOk(19, s[19]);
  }

  // ---- Case does not matter ----

  function UpperString(s: string): (r: string)
    ensures |r| == |s| && forall i :: 0 <= i < |s| ==> r[i] == Upper(s[i])
  {
    seq(|s|, i requires 0 <= i < |s| => Upper(s[i]))
  }

  function LowerString(s: string): (r: string)
    ensures |r| == |s| && forall i :: 0 <= i < |s| ==> r[i] == Lower(s[i])
  {
    seq(|s|, i requires 0 <= i < |s| => Lower(s[i]))
  }

  /** Under the `i` flag no pattern can tell a string from its upper-case or
      lower-case form. */
  lemma {:induction false} MatchIgnoresCase(p: seq<Piece>, s: string)
    ensures MatchPieces(p, UpperString(s)) == MatchPieces(p, s)
    ensures MatchPieces(p, LowerString(s)) == MatchPieces(p, s)
    decreases |p|
  {
    if p != [] {
      var n := p[0].count;
      if |s| >= n {
        MatchIgnoresCase(p[1..], s[n..]);
        assert UpperString(s)[n..] == UpperString(s[n..]);
        assert LowerString(s)[n..] == LowerString(s[n..]);
        forall i | 0 <= i < n
          ensures ClassMatches(p[0].ranges, Upper(s[i])) == ClassMatches(p[0].ranges, s[i])
          ensures ClassMatches(p[0].ranges, Lower(s[i])) == ClassMatches(p[0].ranges, s[i])
        {
          var c := s[i];
          assert Upper(Upper(c)) == Upper(c) && Lower(Upper(c)) == Lower(c);
          assert Upper(Lower(c)) == Upper(c) && Lower(Lower(c)) == Lower(c);
        }
      }
    }
  }

  /** Changing the case of an id does not change the verdict. */
  lemma VerdictIgnoresCase(id: string)
    ensures IsValidUuid(UpperString(id)) == IsValidUuid(id)
    ensures IsValidUuid(LowerString(id)) == IsValidUuid(id)
  {
    MatchIgnoresCase(UUID_V4, id);
  }

  // ---- The middleware ----

  const INVALID_ID_ERROR := Failure("The parameter id is invalid", BAD_REQUEST, "Invalid Entry", None)

  function VerifyId(id: string): (r: Outcome)
    ensures r == Next <==> IsUuidV4Text(id)
    ensures r != Next ==> r == Throw(INVALID_ID_ERROR)
  {
    if !IsValidUuid(id) then Throw(INVALID_ID_ERROR) else Next
  }
}
