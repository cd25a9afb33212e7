/** The symbol allowlist and the selection of assets by it. */
module SymbolFilter {
  import opened Ledger
  import opened Text

  /** Symbols are compared trimmed and in ASCII upper case. */
  function Canonical(raw: string): string { Upper(Trim(raw)) }

  // ----- Parsing -----

  /** The non-blank canonical symbols, each where it first occurs. */
  function FirstOccurrences(raws: seq<string>): seq<string> {
    if raws == [] then []
    else
      var kept := FirstOccurrences(raws[..|raws| - 1]);
      var symbol := Canonical(raws[|raws| - 1]);
      if symbol == "" || symbol in kept then kept else kept + [symbol]
  }

  function AllowlistOf(value: string): Option<seq<string>> {
    var symbols := FirstOccurrences(SplitOn(value, ','));
    if symbols == [] then None else Some(symbols)
  }

  /** `SymbolAllowlist::parse`. */
  method ParseAllowlist(value: string) returns (allowlist: Option<seq<string>>)
    ensures allowlist == AllowlistOf(value)
  {
    var seen: set<string> := {};
    var symbols: seq<string> := [];
    var raws := SplitOn(value, ',');
    for i := 0 to |raws|
      invariant symbols == FirstOccurrences(raws[..i])
      invariant forall x :: x in seen <==> x in symbols
    {
      assert raws[..i + 1][..i] == raws[..i];
      var symbol := Canonical(raws[i]);
      if symbol == "" || symbol in seen {
        continue;
      }
      seen := seen + {symbol};
      symbols := symbols + [symbol];
    }
    assert raws[..|raws|] == raws;
    allowlist := if symbols == [] then None else Some(symbols);
  }

  // ----- What the parser yields -----

  predicate NoDuplicates(symbols: seq<string>) {
    forall i, j | 0 <= i < j < |symbols| :: symbols[i] != symbols[j]
  }

  /** Where symbol `x` first occurs; the length when it does not. */
  function FirstAt(raws: seq<string>, x: string): nat {
    if raws == [] || Canonical(raws[0]) == x then 0 else 1 + FirstAt(raws[1..], x)
  }

  ghost predicate Occurs(raws: seq<string>, x: string) {
    exists i | 0 <= i < |raws| :: Canonical(raws[i]) == x
  }

  /** The symbols that occur, non-blank, once each, in order of first
      occurrence. */
  ghost predicate ListsFirstOccurrences(raws: seq<string>, symbols: seq<string>) {
    && NoDuplicates(symbols)
    && (forall x :: x in symbols <==> x != "" && Occurs(raws, x))
    && (forall i, j | 0 <= i < j < |symbols| :: FirstAt(raws, symbols[i]) < FirstAt(raws, symbols[j]))
  }

  lemma {:induction false} FirstAtSnoc(raws: seq<string>, raw: string, x: string)
    ensures FirstAt(raws, x) <= |raws|
    ensures FirstAt(raws, x) < |raws| <==> Occurs(raws, x)
    ensures Occurs(raws, x) ==> FirstAt(raws + [raw], x) == FirstAt(raws, x)
    ensures !Occurs(raws, x) ==> FirstAt(raws + [raw], x) == if Canonical(raw) == x then |raws| else |raws| + 1
    decreases |raws|
  {
    if raws != [] {
      FirstAtSnoc(raws[1..], raw, x);
      assert (raws + [raw])[1..] == raws[1..] + [raw];
      assert Occurs(raws, x) <==> Canonical(raws[0]) == x || Occurs(raws[1..], x) by {
        if Occurs(raws, x) && Canonical(raws[0]) != x {
          var i :| 0 <= i < |raws| && Canonical(raws[i]) == x;
          assert raws[1..][i - 1] == raws[i];
        }
      }
    }
  }

  lemma OccursSnoc(raws: seq<string>, raw: string, x: string)
    ensures Occurs(raws + [raw], x) <==> Occurs(raws, x) || Canonical(raw) == x
  {
    if Occurs(raws, x) {
      var i :| 0 <= i < |raws| && Canonical(raws[i]) == x;
      assert (raws + [raw])[i] == raws[i];
    }
    assert (raws + [raw])[|raws|] == raw;
  }

  lemma {:induction false} FirstOccurrencesAreListed(raws: seq<string>)
    ensures ListsFirstOccurrences(raws, FirstOccurrences(raws))
    decreases |raws|
  {
    if raws != [] {
      var front, raw := raws[..|raws| - 1], raws[|raws| - 1];
      assert raws == front + [raw];
      FirstOccurrencesAreListed(front);
      var kept, symbols := FirstOccurrences(front), FirstOccurrences(raws);
      forall x ensures x in symbols <==> x != "" && Occurs(raws, x) {
        OccursSnoc(front, raw, x);
      }
      forall i, j | 0 <= i < j < |symbols| ensures FirstAt(raws, symbols[i]) < FirstAt(raws, symbols[j]) {
        assert symbols[i] in kept;
        FirstAtSnoc(front, raw, symbols[i]);
        FirstAtSnoc(front, raw, symbols[j]);
        if j < |kept| {
          assert symbols[j] in kept;
        }
      }
    }
  }

  /** There is only one such list. */
  lemma {:induction false} ListIsUnique(raws: seq<string>, a: seq<string>, b: seq<string>)
    requires NoDuplicates(a) && NoDuplicates(b) && forall x :: x in a <==> x in b
    requires forall i, j | 0 <= i < j < |a| :: FirstAt(raws, a[i]) < FirstAt(raws, a[j])
    requires forall i, j | 0 <= i < j < |b| :: FirstAt(raws, b[i]) < FirstAt(raws, b[j])
    ensures a == b
    decreases |a|
  {
    assert b != [] ==> b[0] in b;
    if a != [] {
      assert a[0] in b && b[0] in a;
      assert a[0] == b[0];
      forall x ensures x in a[1..] <==> x in b[1..] {
        if x in a[1..] { assert x in b; }
        if x in b[1..] { assert x in a; }
      }
      ListIsUnique(raws, a[1..], b[1..]);
      assert a == [a[0]] + a[1..] && b == [b[0]] + b[1..];
    }
  }

  /** The parser returns the list of first occurrences and nothing else; it
      returns none when every piece is blank. */
  lemma AllowlistIff(value: string, symbols: seq<string>)
    ensures AllowlistOf(value) == Some(symbols) <==>
              (symbols != [] && ListsFirstOccurrences(SplitOn(value, ','), symbols))
    ensures AllowlistOf(value) == None <==> forall raw | raw in SplitOn(value, ',') :: Blank(raw)
  {
    var raws := SplitOn(value, ',');
    FirstOccurrencesAreListed(raws);
    if ListsFirstOccurrences(raws, symbols) {
      ListIsUnique(raws, symbols, FirstOccurrences(raws));
    }
    forall raw | raw in raws ensures Blank(raw) <==> Canonical(raw) == "" {
      TrimIsBlankIff(raw);
    }
    if AllowlistOf(value) == None {
      forall raw | raw in raws ensures Blank(raw) {
        var i :| 0 <= i < |raws| && raws[i] == raw;
        assert Canonical(raw) != "" ==> Occurs(raws, Canonical(raw));
      }
    } else {
      var x := FirstOccurrences(raws)[0];
      assert Occurs(raws, x);
      var i :| 0 <= i < |raws| && Canonical(raws[i]) == x;
      assert raws[i] in raws;
    }
  }

  // ----- Joining and parsing again -----

  predicate CleanSymbol(x: string) { x != "" && ',' !in x && Canonical(x) == x }

  lemma CanonicalIsClean(raw: string)
    requires Canonical(raw) != "" && ',' !in raw
    ensures CleanSymbol(Canonical(raw))
  {
    var i, j := TrimFacts(raw);
    UpperFacts(Trim(raw));
    TrimOfTrimmed(Canonical(raw));
    UpperFacts(Canonical(raw));
  }

  lemma {:induction false} CleanSymbolsStay(symbols: seq<string>)
    requires NoDuplicates(symbols) && forall x | x in symbols :: CleanSymbol(x)
    ensures FirstOccurrences(symbols) == symbols
    decreases |symbols|
  {
    if symbols != [] {
      var front, last := symbols[..|symbols| - 1], symbols[|symbols| - 1];
      assert symbols == front + [last];
      CleanSymbolsStay(front);
      OneMoreSymbol(front, last);
    }
  }

  lemma OneMoreSymbol(symbols: seq<string>, last: string)
    requires FirstOccurrences(symbols) == symbols && CleanSymbol(last) && last !in symbols
    ensures FirstOccurrences(symbols + [last]) == symbols + [last]
  {
    assert (symbols + [last])[..|symbols|] == symbols;
  }

  /** A parsed allowlist, joined with commas, parses to itself. */
  lemma JoinThenParse(value: string)
    requires AllowlistOf(value).Some?
    ensures AllowlistOf(Join(AllowlistOf(value).value, ',')) == AllowlistOf(value)
  {
    var raws := SplitOn(value, ',');
    var symbols := AllowlistOf(value).value;
    FirstOccurrencesAreListed(raws);
    PiecesHaveNoSeparator(value, ',');
    forall x | x in symbols ensures CleanSymbol(x) {
      assert Occurs(raws, x);
      var i :| 0 <= i < |raws| && Canonical(raws[i]) == x;
      assert raws[i] in raws;
      CanonicalIsClean(raws[i]);
    }
    CleanSymbolsStay(symbols);
    SplitJoin(symbols, ',');
  }

  // ----- Selection -----

  datatype Asset = Asset(id: AssetId, symbol: Option<string>, ticker: Option<string>)

  datatype Selection = Selection(selected: seq<Asset>, missing: seq<string>)

  function NonBlank(text: Option<string>): Option<string> {
    if text.Some? && Trim(text.value) != "" then text else None
  }

  /** The asset's symbol, or its ticker when the symbol is blank or absent. */
  function LookupSymbol(asset: Asset): Option<string> {
    var text := if NonBlank(asset.symbol).Some? then NonBlank(asset.symbol) else NonBlank(asset.ticker);
    if text.Some? then Some(Canonical(text.value)) else None
  }

  predicate ContainsAsset(symbols: seq<string>, asset: Asset) {
    LookupSymbol(asset).Some? && LookupSymbol(asset).value in symbols
  }

  function Filter<T>(keep: T -> bool, xs: seq<T>): seq<T> {
    if xs == [] then [] else Filter(keep, xs[..|xs| - 1]) + (if keep(xs[|xs| - 1]) then [xs[|xs| - 1]] else [])
  }

  function Available(assets: seq<Asset>): set<string> {
    set a | a in assets && LookupSymbol(a).Some? :: LookupSymbol(a).value
  }

  function SelectByAllowlist(assets: seq<Asset>, allowlist: Option<seq<string>>): Selection {
    match allowlist
    case None => Selection(assets, [])
    case Some(symbols) =>
      Selection(Filter(a => ContainsAsset(symbols, a), assets),
                Filter(x => x !in Available(assets), symbols))
  }

  /** `sub` lists, in order, exactly the positions of `xs` that satisfy `keep`. */
  ghost predicate SubsequenceWhere<T(!new)>(keep: T -> bool, xs: seq<T>, sub: seq<T>, at: seq<nat>) {
    && |at| == |sub|
    && (forall i | 0 <= i < |at| :: at[i] < |xs| && sub[i] == xs[at[i]])
    && (forall i, j | 0 <= i < j < |at| :: at[i] < at[j])
    && (forall k | 0 <= k < |xs| :: keep(xs[k]) <==> k in at)
  }

  lemma {:induction false} FilterFacts<T(!new)>(keep: T -> bool, xs: seq<T>) returns (at: seq<nat>)
    ensures SubsequenceWhere(keep, xs, Filter(keep, xs), at)
    decreases |xs|
  {
    if xs == [] {
      at := [];
    } else {
      var front, last := xs[..|xs| - 1], xs[|xs| - 1];
      at := FilterFacts(keep, front);
      if keep(last) {
        at := at + [|front|];
      }
      forall k | 0 <= k < |xs| ensures keep(xs[k]) <==> k in at {
        if k < |front| {
          assert front[k] == xs[k];
        }
      }
    }
  }

  lemma {:induction false} FilterMembers<T(!new)>(keep: T -> bool, xs: seq<T>, x: T)
    ensures x in Filter(keep, xs) <==> x in xs && keep(x)
    decreases |xs|
  {
    if xs != [] {
      FilterMembers(keep, xs[..|xs| - 1], x);
      assert xs == xs[..|xs| - 1] + [xs[|xs| - 1]];
    }
  }

  /** Selected assets are the allowed ones, in order and with every repetition;
      missing symbols are the unavailable ones, in order; and every allowed
      symbol is either missing or the lookup symbol of a selected asset, never
      both. */
  lemma SelectionPartitions(assets: seq<Asset>, symbols: seq<string>) returns (assetsAt: seq<nat>, missingAt: seq<nat>)
    ensures var s := SelectByAllowlist(assets, Some(symbols));
      && SubsequenceWhere(a => ContainsAsset(symbols, a), assets, s.selected, assetsAt)
      && SubsequenceWhere(x => x !in Available(s.selected), symbols, s.missing, missingAt)
      && (forall x | x in symbols ::
            x !in s.missing <==> exists a :: a in s.selected && LookupSymbol(a) == Some(x))
      && (forall a | a in s.selected :: LookupSymbol(a).Some? && LookupSymbol(a).value in symbols)
  {
    var s := SelectByAllowlist(assets, Some(symbols));
    assetsAt := FilterFacts(a => ContainsAsset(symbols, a), assets);
    missingAt := FilterFacts(x => x !in Available(assets), symbols);
    forall a ensures a in s.selected <==> a in assets && ContainsAsset(symbols, a) {
      FilterMembers(a => ContainsAsset(symbols, a), assets, a);
    }
    forall x | x in symbols
      ensures x in Available(assets) <==> x in Available(s.selected)
      ensures x !in s.missing <==> exists a :: a in s.selected && LookupSymbol(a) == Some(x)
    {
      FilterMembers(x => x !in Available(assets), symbols, x);
      if x in Available(assets) {
        var a :| a in assets && LookupSymbol(a).Some? && LookupSymbol(a).value == x;
        assert a in s.selected;
      }
    }
  }

  // ----- What a symbol is -----

  /** `symbol` is `raw` without its outer whitespace, its ASCII letters raised and
      nothing else changed. */
  ghost predicate IsCanonicalOf(raw: string, symbol: string) {
    exists i, j :: 0 <= i <= j <= |raw| && Blank(raw[..i]) && Blank(raw[j..]) && Trimmed(raw[i..j])
                   && Raised(raw[i..j], symbol)
  }

  predicate Raised(s: string, u: string) {
    |u| == |s| && forall k | 0 <= k < |s| ::
      if 'a' <= s[k] <= 'z' then u[k] as int == s[k] as int - 32 else u[k] == s[k]
  }

  lemma CanonicalMeaning(raw: string)
    ensures IsCanonicalOf(raw, Canonical(raw))
  {
    var i, j := TrimFacts(raw);
    assert Raised(raw[i..j], Canonical(raw));
  }

  /** An asset is looked up by its symbol, and by its ticker only when the symbol
      is absent or blank. */
  lemma LookupMeaning(asset: Asset)
    ensures var found := LookupSymbol(asset);
      && (asset.symbol.Some? && !Blank(asset.symbol.value) ==>
            found.Some? && IsCanonicalOf(asset.symbol.value, found.value))
      && ((asset.symbol.None? || Blank(asset.symbol.value)) && asset.ticker.Some? && !Blank(asset.ticker.value) ==>
            found.Some? && IsCanonicalOf(asset.ticker.value, found.value))
      && ((asset.symbol.None? || Blank(asset.symbol.value)) && (asset.ticker.None? || Blank(asset.ticker.value)) ==>
            found.None?)
  {
    if asset.symbol.Some? { TrimIsBlankIff(asset.symbol.value); CanonicalMeaning(asset.symbol.value); }
    if asset.ticker.Some? { TrimIsBlankIff(asset.ticker.value); CanonicalMeaning(asset.ticker.value); }
  }

  /** Without an allowlist every asset is selected and nothing is missing. */
  lemma NoAllowlistSelectsAll(assets: seq<Asset>, value: string)
    requires forall raw | raw in SplitOn(value, ',') :: Blank(raw)
    ensures SelectByAllowlist(assets, AllowlistOf(value)) == Selection(assets, [])
  {
    AllowlistIff(value, []);
  }
}
