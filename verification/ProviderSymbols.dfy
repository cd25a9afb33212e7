/** The provider symbol map: `CANONICAL=PROVIDER` entries separated by commas. */
module ProviderSymbols {
  import opened Ledger
  import opened Text

  datatype MapError = NotAPair(entry: string) | BlankSide(entry: string)

  datatype Result = Ok(symbols: map<string, string>) | Err(error: MapError)

  datatype Entry = Skipped | Pair(canonical: string, provider: string) | Bad(error: MapError)

  /** The text before and after the first separator. */
  function SplitOnce(s: string, sep: char): Option<(string, string)> {
    if s == "" then None
    else if s[0] == sep then Some(("", s[1..]))
    else
      match SplitOnce(s[1..], sep)
      case None => None
      case Some((left, right)) => Some(([s[0]] + left, right))
  }

  function ParseEntry(raw: string): Entry {
    var entry := Trim(raw);
    if entry == "" then Skipped
    else
      match SplitOnce(entry, '=')
      case None => Bad(NotAPair(entry))
      case Some((left, right)) =>
        if Upper(Trim(left)) == "" || Trim(right) == "" then Bad(BlankSide(entry))
        else Pair(Upper(Trim(left)), Trim(right))
  }

  /** Entries from the left; a later entry wins, the first bad one stops. */
  function FoldEntries(raws: seq<string>): Result {
    if raws == [] then Ok(map[])
    else
      match FoldEntries(raws[..|raws| - 1])
      case Err(e) => Err(e)
      case Ok(m) =>
        match ParseEntry(raws[|raws| - 1])
        case Skipped => Ok(m)
        case Pair(canonical, provider) => Ok(m[canonical := provider])
        case Bad(e) => Err(e)
  }

  function ProviderMapOf(value: Option<string>): Result {
    if value.None? || Trim(value.value) == "" then Ok(map[]) else FoldEntries(SplitOn(Trim(value.value), ','))
  }

  /** `optional_provider_symbol_map_env`; `value` is the environment variable. */
  method OptionalProviderSymbolMap(value: Option<string>) returns (result: Result)
    ensures result == ProviderMapOf(value)
  {
    if value.None? || Trim(value.value) == "" {
      return Ok(map[]);
    }
    var symbols: map<string, string> := map[];
    var raws := SplitOn(Trim(value.value), ',');
    for i := 0 to |raws|
      invariant FoldEntries(raws[..i]) == Ok(symbols)
    {
      assert raws[..i + 1][..i] == raws[..i];
      var entry := Trim(raws[i]);
      if entry == "" {
        continue;
      }
      var pair := SplitOnce(entry, '=');
      if pair.None? {
        ErrorStays(raws, i + 1);
        return Err(NotAPair(entry));
      }
      var canonical, provider := Upper(Trim(pair.value.0)), Trim(pair.value.1);
      if canonical == "" || provider == "" {
        ErrorStays(raws, i + 1);
        return Err(BlankSide(entry));
      }
      symbols := symbols[canonical := provider];
    }
    assert raws[..|raws|] == raws;
    result := Ok(symbols);
  }

  lemma {:induction false} ErrorStays(raws: seq<string>, n: nat)
    requires n <= |raws| && FoldEntries(raws[..n]).Err?
    ensures FoldEntries(raws) == FoldEntries(raws[..n])
    decreases |raws|
  {
    if n == |raws| {
      assert raws[..n] == raws;
    } else {
      assert raws[..|raws| - 1][..n] == raws[..n];
      ErrorStays(raws[..|raws| - 1], n);
    }
  }

  // ----- When it fails, and what it holds -----

  lemma {:induction false} SplitOnceFacts(s: string, sep: char)
    ensures SplitOnce(s, sep).None? <==> sep !in s
    ensures SplitOnce(s, sep).Some? ==>
              var (left, right) := SplitOnce(s, sep).value; s == left + [sep] + right && sep !in left
  {
    if s != "" && s[0] != sep {
      SplitOnceFacts(s[1..], sep);
      assert s == [s[0]] + s[1..];
    }
  }

  /** An entry is refused exactly when it is not blank and has no equals sign or
      only whitespace on one side of the first one. */
  lemma BadEntryIff(raw: string)
    ensures ParseEntry(raw).Bad? <==>
              !Blank(raw) && forall left, right :: Trim(raw) == left + "=" + right && '=' !in left ==>
                  Blank(left) || Blank(right)
    ensures ParseEntry(raw).Skipped? <==> Blank(raw)
  {
    var entry := Trim(raw);
    TrimIsBlankIff(raw);
    SplitOnceFacts(entry, '=');
    forall left, right | entry == left + "=" + right && '=' !in left
      ensures SplitOnce(entry, '=') == Some((left, right))
    {
      SplitOnceAt(left, right, '=');
      assert left + ['='] + right == entry;
    }
    if SplitOnce(entry, '=').Some? {
      var (left, right) := SplitOnce(entry, '=').value;
      assert entry == left + "=" + right;
      TrimIsBlankIff(left);
      TrimIsBlankIff(right);
    }
  }

  lemma {:induction false} SplitOnceAt(left: string, right: string, sep: char)
    requires sep !in left
    ensures SplitOnce(left + [sep] + right, sep) == Some((left, right))
    decreases |left|
  {
    var s := left + [sep] + right;
    if left == "" {
      assert s == [sep] + right && s[1..] == right;
    } else {
      assert left[0] in left && s[1..] == left[1..] + [sep] + right;
      SplitOnceAt(left[1..], right, sep);
      assert [left[0]] + left[1..] == left;
    }
  }

  /** Entry `i` is the last one for key `k`, and gives it the value `v`. */
  ghost predicate LastFor(raws: seq<string>, i: int, k: string, v: string) {
    0 <= i < |raws| && ParseEntry(raws[i]) == Pair(k, v)
    && forall j | i < j < |raws| :: !(ParseEntry(raws[j]).Pair? && ParseEntry(raws[j]).canonical == k)
  }

  ghost predicate LastWins(raws: seq<string>, m: map<string, string>) {
    && (forall k | k in m :: exists i :: LastFor(raws, i, k, m[k]))
    && (forall k, i, v | LastFor(raws, i, k, v) :: k in m && m[k] == v)
  }

  /** Fails exactly when some entry is bad, with the first bad entry; otherwise
      every key has the value of its last entry, and there are no other keys. */
  lemma {:induction false} FoldFacts(raws: seq<string>)
    ensures FoldEntries(raws).Ok? <==> forall raw | raw in raws :: !ParseEntry(raw).Bad?
    ensures FoldEntries(raws).Err? ==>
              exists i :: 0 <= i < |raws| && ParseEntry(raws[i]) == Bad(FoldEntries(raws).error)
                          && forall j | 0 <= j < i :: !ParseEntry(raws[j]).Bad?
    ensures FoldEntries(raws).Ok? ==> LastWins(raws, FoldEntries(raws).symbols)
    decreases |raws|
  {
    if raws != [] {
      var front, last := raws[..|raws| - 1], raws[|raws| - 1];
      assert raws == front + [last];
      FoldFacts(front);
      match FoldEntries(front)
      case Err(e) =>
        var i :| 0 <= i < |front| && ParseEntry(front[i]) == Bad(e)
                 && forall j | 0 <= j < i :: !ParseEntry(front[j]).Bad?;
        assert raws[i] == front[i];
      case Ok(m) =>
        if ParseEntry(last).Bad? {
          assert raws[|front|] == last;
        } else {
          LastWinsSnoc(front, last, m);
        }
    }
  }

  lemma LastWinsSnoc(front: seq<string>, last: string, m: map<string, string>)
    requires LastWins(front, m) && !ParseEntry(last).Bad?
    ensures LastWins(front + [last],
                     if ParseEntry(last).Pair? then m[ParseEntry(last).canonical := ParseEntry(last).provider] else m)
  {
    var raws := front + [last];
    var entry := ParseEntry(last);
    var m' := if entry.Pair? then m[entry.canonical := entry.provider] else m;
    forall k | k in m' ensures exists i :: LastFor(raws, i, k, m'[k]) {
      if entry.Pair? && k == entry.canonical {
        assert LastFor(raws, |front|, k, m'[k]);
      } else {
        var i :| LastFor(front, i, k, m[k]);
        assert LastFor(raws, i, k, m'[k]);
      }
    }
    forall k, i, v | LastFor(raws, i, k, v) ensures k in m' && m'[k] == v {
      if i < |front| {
        assert raws[|front|] == last;
        assert LastFor(front, i, k, v) by {
          assert forall j | i < j < |front| :: front[j] == raws[j];
        }
      }
    }
  }

  // ----- Printing a map and parsing it back -----

  predicate CleanPair(pair: (string, string)) {
    && pair.0 != "" && Trimmed(pair.0) && IsUpper(pair.0) && ',' !in pair.0 && '=' !in pair.0
    && pair.1 != "" && Trimmed(pair.1) && ',' !in pair.1
  }

  function PrintPair(pair: (string, string)): string { pair.0 + "=" + pair.1 }

  function PrintPairs(pairs: seq<(string, string)>): (entries: seq<string>)
    ensures |entries| == |pairs| && forall i | 0 <= i < |pairs| :: entries[i] == PrintPair(pairs[i])
  {
    if pairs == [] then [] else [PrintPair(pairs[0])] + PrintPairs(pairs[1..])
  }

  function MapOf(pairs: seq<(string, string)>): map<string, string> {
    if pairs == [] then map[] else MapOf(pairs[..|pairs| - 1])[pairs[|pairs| - 1].0 := pairs[|pairs| - 1].1]
  }

  lemma CleanPairParses(pair: (string, string))
    requires CleanPair(pair)
    ensures ParseEntry(PrintPair(pair)) == Pair(pair.0, pair.1)
    ensures Trimmed(PrintPair(pair)) && ',' !in PrintPair(pair) && PrintPair(pair) != ""
  {
    var s := PrintPair(pair);
    assert s[0] == pair.0[0] && s[|s| - 1] == pair.1[|pair.1| - 1];
    TrimOfTrimmed(s);
    TrimOfTrimmed(pair.0);
    TrimOfTrimmed(pair.1);
    SplitOnceAt(pair.0, pair.1, '=');
    assert pair.0 + ['='] + pair.1 == s;
    UpperFacts(pair.0);
  }

  lemma {:induction false} CleanPairsFold(pairs: seq<(string, string)>)
    requires forall pair | pair in pairs :: CleanPair(pair)
    ensures FoldEntries(PrintPairs(pairs)) == Ok(MapOf(pairs))
    decreases |pairs|
  {
    if pairs != [] {
      var front, last := pairs[..|pairs| - 1], pairs[|pairs| - 1];
      CleanPairsFold(front);
      CleanPairParses(last);
      PrintSnoc(front, last);
      assert front + [last] == pairs;
      FoldSnoc(PrintPairs(front), PrintPair(last), MapOf(front), last);
    }
  }

  lemma PrintSnoc(pairs: seq<(string, string)>, last: (string, string))
    ensures PrintPairs(pairs + [last]) == PrintPairs(pairs) + [PrintPair(last)]
  {
    assert forall i | 0 <= i < |pairs| + 1 ::
        PrintPairs(pairs + [last])[i] == (PrintPairs(pairs) + [PrintPair(last)])[i];
  }

  lemma FoldSnoc(raws: seq<string>, raw: string, m: map<string, string>, pair: (string, string))
    requires FoldEntries(raws) == Ok(m) && ParseEntry(raw) == Pair(pair.0, pair.1)
    ensures FoldEntries(raws + [raw]) == Ok(m[pair.0 := pair.1])
  {
    assert (raws + [raw])[..|raws|] == raws;
  }

  /** Joined clean entries have nothing to trim around them. */
  lemma {:induction false} JoinedIsTrimmed(parts: seq<string>)
    requires parts != [] && forall i | 0 <= i < |parts| :: parts[i] != "" && Trimmed(parts[i])
    ensures Join(parts, ',') != "" && Join(parts, ',')[0] == parts[0][0]
    ensures Trimmed(Join(parts, ','))
    decreases |parts|
  {
    if |parts| > 1 {
      JoinedIsTrimmed(parts[1..]);
    }
  }

  /** Printing any listing of clean pairs and parsing it gives the map of the
      listing, in which the last pair of a key wins. */
  lemma ParsePrintedPairs(pairs: seq<(string, string)>)
    requires forall pair | pair in pairs :: CleanPair(pair)
    ensures ProviderMapOf(Some(Join(PrintPairs(pairs), ','))) == Ok(MapOf(pairs))
  {
    var entries := PrintPairs(pairs);
    if pairs != [] {
      forall i | 0 <= i < |entries| ensures Trimmed(entries[i]) && ',' !in entries[i] && entries[i] != "" {
        assert pairs[i] in pairs;
        CleanPairParses(pairs[i]);
      }
      JoinedIsTrimmed(entries);
      TrimOfTrimmed(Join(entries, ','));
      SplitJoin(entries, ',');
      CleanPairsFold(pairs);
    }
  }

  /** `pairs` lists the map: every key once. */
  ghost predicate Lists(pairs: seq<(string, string)>, m: map<string, string>) {
    && (forall pair | pair in pairs :: pair.0 in m && m[pair.0] == pair.1)
    && (forall k | k in m :: (k, m[k]) in pairs)
  }

  lemma {:induction false} MapOfFacts(pairs: seq<(string, string)>)
    ensures forall k | k in MapOf(pairs) :: (k, MapOf(pairs)[k]) in pairs
    ensures forall pair | pair in pairs :: pair.0 in MapOf(pairs)
    decreases |pairs|
  {
    if pairs != [] {
      MapOfFacts(pairs[..|pairs| - 1]);
      assert pairs == pairs[..|pairs| - 1] + [pairs[|pairs| - 1]];
    }
  }

  /** Whatever the order in which a map of clean symbols is printed, parsing
      gives the map back. */
  lemma ParsePrintedMap(m: map<string, string>, pairs: seq<(string, string)>)
    requires Lists(pairs, m) && forall k | k in m :: CleanPair((k, m[k]))
    ensures ProviderMapOf(Some(Join(PrintPairs(pairs), ','))) == Ok(m)
  {
    ParsePrintedPairs(pairs);
    MapOfFacts(pairs);
    var n := MapOf(pairs);
    forall k ensures k in n <==> k in m {
      if k in m { assert (k, m[k]) in pairs; }
    }
    assert forall k | k in n :: n[k] == m[k];
    assert n == m;
  }

  /** Every accepted map is clean, so printing it and parsing again changes
      nothing. */
  lemma AcceptedIsClean(value: Option<string>)
    requires ProviderMapOf(value).Ok?
    ensures forall k | k in ProviderMapOf(value).symbols :: CleanPair((k, ProviderMapOf(value).symbols[k]))
  {
    if value.Some? && Trim(value.value) != "" {
      var raws := SplitOn(Trim(value.value), ',');
      var m := ProviderMapOf(value).symbols;
      PiecesHaveNoSeparator(Trim(value.value), ',');
      FoldFacts(raws);
      forall k | k in m ensures CleanPair((k, m[k])) {
        var i :| LastFor(raws, i, k, m[k]);
        assert raws[i] in raws;
        PairIsClean(raws[i]);
      }
    }
  }

  lemma PairIsClean(raw: string)
    requires ParseEntry(raw).Pair? && ',' !in raw
    ensures CleanPair((ParseEntry(raw).canonical, ParseEntry(raw).provider))
  {
    var entry := Trim(raw);
    var _, _ := TrimFacts(raw);
    SplitOnceFacts(entry, '=');
    var (left, right) := SplitOnce(entry, '=').value;
    assert entry == left + ['='] + right;
    assert forall c | c in left :: c in entry;
    assert forall c | c in right :: c in entry;
    var _, _ := TrimFacts(left);
    var _, _ := TrimFacts(right);
    UpperFacts(Trim(left));
  }

  // ----- What an entry says -----

  /** An accepted entry gives what stands before its first equals sign, trimmed
      and raised, the value of what stands after it, trimmed; a refused one lacks
      the sign, or else a side. */
  lemma EntryMeaning(raw: string)
    ensures ParseEntry(raw).Pair? ==>
              exists left, right :: Trim(raw) == left + "=" + right && '=' !in left
                && ParseEntry(raw) == Pair(Upper(Trim(left)), Trim(right)) && !Blank(left) && !Blank(right)
    ensures ParseEntry(raw) == Bad(NotAPair(Trim(raw))) <==> !Blank(raw) && '=' !in Trim(raw)
    ensures ParseEntry(raw).Bad? && '=' in Trim(raw) ==> ParseEntry(raw) == Bad(BlankSide(Trim(raw)))
  {
    var entry := Trim(raw);
    TrimIsBlankIff(raw);
    SplitOnceFacts(entry, '=');
    if SplitOnce(entry, '=').Some? {
      var (left, right) := SplitOnce(entry, '=').value;
      assert entry == left + "=" + right;
      TrimIsBlankIff(left);
      TrimIsBlankIff(right);
      assert Upper(Trim(left)) == "" <==> Trim(left) == "";
    }
  }
}
