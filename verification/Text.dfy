/** Strings as the configuration parsers use them: splitting, joining, trimming
    and ASCII case. */
module Text {

  // ----- Split and join -----

  /** The pieces between the separators; never empty. */
  function SplitOn(s: string, sep: char): (parts: seq<string>)
    ensures |parts| >= 1
  {
    if s == "" then [""]
    else
      var rest := SplitOn(s[1..], sep);
      if s[0] == sep then [""] + rest else [[s[0]] + rest[0]] + rest[1..]
  }

  function Join(parts: seq<string>, sep: char): string {
    if parts == [] then ""
    else if |parts| == 1 then parts[0]
    else parts[0] + [sep] + Join(parts[1..], sep)
  }

  lemma {:induction false} PiecesHaveNoSeparator(s: string, sep: char)
    ensures forall p | p in SplitOn(s, sep) :: sep !in p
  {
    if s != "" {
      PiecesHaveNoSeparator(s[1..], sep);
      var rest := SplitOn(s[1..], sep);
      forall p | p in SplitOn(s, sep) ensures sep !in p {
        assert rest[0] in rest;
        if s[0] == sep {
          assert p == "" || p in rest;
        } else {
          assert p == [s[0]] + rest[0] || p in rest[1..];
        }
      }
    }
  }

  lemma {:induction false} JoinSplit(s: string, sep: char)
    ensures Join(SplitOn(s, sep), sep) == s
  {
    if s != "" {
      JoinSplit(s[1..], sep);
      var rest := SplitOn(s[1..], sep);
      var parts := SplitOn(s, sep);
      if s[0] == sep {
        assert parts[1..] == rest;
      } else if |rest| == 1 {
        assert parts == [[s[0]] + rest[0]];
      } else {
        assert parts[1..] == rest[1..];
        assert [s[0]] + rest[0] + [sep] + Join(rest[1..], sep) == [s[0]] + (rest[0] + [sep] + Join(rest[1..], sep));
      }
    }
  }

  /** A piece without the separator, then more. */
  lemma {:induction false} SplitAfterPiece(p: string, rest: string, sep: char)
    requires sep !in p
    ensures SplitOn(p, sep) == [p]
    ensures SplitOn(p + [sep] + rest, sep) == [p] + SplitOn(rest, sep)
    decreases |p|
  {
    if p == "" {
      assert p + [sep] + rest == [sep] + rest;
      assert (p + [sep] + rest)[1..] == rest;
    } else {
      assert p[0] in p && forall c | c in p[1..] :: c in p;
      SplitAfterPiece(p[1..], rest, sep);
      assert (p + [sep] + rest)[1..] == p[1..] + [sep] + rest;
      assert [p[0]] + p[1..] == p;
    }
  }

  lemma {:induction false} SplitJoin(parts: seq<string>, sep: char)
    requires parts != [] && forall p | p in parts :: sep !in p
    ensures SplitOn(Join(parts, sep), sep) == parts
    decreases |parts|
  {
    assert parts[0] in parts;
    if |parts| == 1 {
      SplitAfterPiece(parts[0], "", sep);
      assert parts == [parts[0]];
    } else {
      SplitJoin(parts[1..], sep);
      SplitAfterPiece(parts[0], Join(parts[1..], sep), sep);
      assert parts == [parts[0]] + parts[1..];
    }
  }

  // ----- Trimming -----

  /** Unicode White_Space. */
  predicate IsWhitespace(c: char) {
    var u := c as int;
    0x9 <= u <= 0xD || u == 0x20 || u == 0x85 || u == 0xA0 || u == 0x1680 || 0x2000 <= u <= 0x200A
    || u == 0x2028 || u == 0x2029 || u == 0x202F || u == 0x205F || u == 0x3000
  }

  function TrimStart(s: string): string {
    if s != "" && IsWhitespace(s[0]) then TrimStart(s[1..]) else s
  }

  function TrimEnd(s: string): string {
    if s != "" && IsWhitespace(s[|s| - 1]) then TrimEnd(s[..|s| - 1]) else s
  }

  function Trim(s: string): string { TrimEnd(TrimStart(s)) }

  /** Nothing left to trim. */
  predicate Trimmed(s: string) {
    s == "" || (!IsWhitespace(s[0]) && !IsWhitespace(s[|s| - 1]))
  }

  predicate Blank(s: string) { forall c | c in s :: IsWhitespace(c) }

  lemma {:induction false} TrimStartFacts(s: string) returns (k: nat)
    ensures k <= |s| && TrimStart(s) == s[k..] && Blank(s[..k])
    ensures k < |s| ==> !IsWhitespace(s[k])
  {
    if s != "" && IsWhitespace(s[0]) {
      k := TrimStartFacts(s[1..]);
      assert s[1..][k..] == s[k + 1..];
      assert s[..k + 1] == [s[0]] + s[1..][..k];
      k := k + 1;
    } else {
      k := 0;
    }
  }

  lemma {:induction false} TrimEndFacts(s: string) returns (k: nat)
    ensures k <= |s| && TrimEnd(s) == s[..k] && Blank(s[k..])
    ensures k > 0 ==> !IsWhitespace(s[k - 1])
  {
    if s != "" && IsWhitespace(s[|s| - 1]) {
      k := TrimEndFacts(s[..|s| - 1]);
      assert s[..|s| - 1][..k] == s[..k];
      assert s[k..] == s[..|s| - 1][k..] + [s[|s| - 1]];
    } else {
      k := |s|;
      assert s[..k] == s && s[k..] == "";
    }
  }

  /** Trimming removes exactly the outer whitespace: what is left is a slice
      with only whitespace around it and none at its ends. */
  lemma TrimFacts(s: string) returns (i: nat, j: nat)
    ensures i <= j <= |s| && Trim(s) == s[i..j] && Blank(s[..i]) && Blank(s[j..])
    ensures Trimmed(Trim(s))
    ensures forall c | c in Trim(s) :: c in s
  {
    i := TrimStartFacts(s);
    var k := TrimEndFacts(s[i..]);
    j := i + k;
    assert s[i..][..k] == s[i..j] && s[i..][k..] == s[j..];
    if k > 0 {
      assert s[i..][k - 1] == s[j - 1];
      assert !Blank(s[i..]) by { assert s[i..][k - 1] in s[i..]; }
      assert i < |s|;
    }
  }

  lemma TrimOfTrimmed(s: string)
    requires Trimmed(s)
    ensures Trim(s) == s
  {
  }

  lemma TrimIsBlankIff(s: string)
    ensures Trim(s) == "" <==> Blank(s)
  {
    var i, j := TrimFacts(s);
    if Trim(s) == "" {
      assert s == s[..i] + s[j..];
    } else {
      assert s[i] == Trim(s)[0];
      assert s[i] in s && !IsWhitespace(s[i]);
    }
  }

  // ----- ASCII case -----

  function UpperChar(c: char): char {
    if 'a' <= c <= 'z' then (c as int - 32) as char else c
  }

  function Upper(s: string): (u: string)
    ensures |u| == |s| && forall i | 0 <= i < |s| :: u[i] == UpperChar(s[i])
  {
    if s == "" then "" else [UpperChar(s[0])] + Upper(s[1..])
  }

  predicate IsUpper(s: string) { forall c | c in s :: !('a' <= c <= 'z') }

  lemma UpperFacts(s: string)
    ensures IsUpper(Upper(s))
    ensures IsUpper(s) ==> Upper(s) == s
    ensures Trimmed(s) ==> Trimmed(Upper(s))
    ensures forall c | c in Upper(s) && !('A' <= c <= 'Z') :: c in s
  {
    forall c | c in Upper(s) && !('A' <= c <= 'Z') ensures c in s {
      var i :| 0 <= i < |s| && Upper(s)[i] == c;
      assert s[i] == c;
    }
    if IsUpper(s) {
      forall i | 0 <= i < |s| ensures Upper(s)[i] == s[i] {
        assert s[i] in s;
      }
    }
  }
}
