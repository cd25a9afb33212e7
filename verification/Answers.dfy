/** Which requests are let through, exactly, and what the others are answered:
    stated on the bodies of the requests and the rows they find. */
module Answers {
  import opened Ledger
  import opened Fingerprints
  import opened LedgerTables
  import opened Protocol
  import opened WriteInvariant
  import opened WriteSteps
  import opened ExactlyOnce
  import opened Lifecycle
  import opened Schedules
  import opened Sent

  // ----- Creations and corrections -----

  /** The operation type the call stands for; a correction is an adjustment. */
  predicate OfType(call: Call, opType: OperationType) {
    (call.Create? && opType == call.create.opType) || (call.Correct? && opType == Adjustment)
  }

  /** The portfolio is the caller's, and holds the operation the call names. */
  predicate Locates(s: Sys, call: Call) {
    && OwnedBy(s.config, call.user, call.portfolio)
    && (call.Correct? ==> InPortfolio(s.tables, call.original, call.portfolio))
    && (!IsWrite(call) ==> InPortfolio(s.tables, call.operation, call.portfolio))
  }

  /** A decimal that is sent is a number above zero. */
  predicate PositiveIfSent(d: Option<DecimalText>) {
    d.Some? ==> d.value.number.Some? && d.value.number.value > 0.0
  }

  /** The decimals and the presence of fields that the service asks for. */
  ghost predicate BodyAccepted(call: Call) {
    match call
    case Create(_, _, _, r) =>
      && PositiveIfSent(r.rate) && PositiveIfSent(r.details.quantity) && PositiveIfSent(r.details.relatedQuantity)
      && forall p | PayloadIs(p, r.opType, r.asset, r.relatedAsset, r.corrected, r.cash, r.details, r.metadata) ::
           PayloadAccepted(p)
    case Correct(_, _, _, o, r) =>
      && PositiveIfSent(r.rate) && PositiveIfSent(r.details.quantity) && PositiveIfSent(r.details.relatedQuantity)
      && forall p | PayloadIs(p, Adjustment, r.asset, r.relatedAsset, Some(o), r.cash, r.details, r.metadata) ::
           PayloadAccepted(p) && Meaningful(p)
    case _ => false
  }

  ghost predicate PayloadIs(p: Payload, opType: OperationType, asset: Option<AssetId>, related: Option<AssetId>,
                            corrected: Option<OperationId>, cash: Option<int>, d: Details, metadata: Option<Metadata>) {
    && p.opType == opType && p.asset == asset && p.relatedAsset == related && p.corrected == corrected
    && Defaulted(cash, 0, p.cash) && (p.hasQuantity <==> d.quantity.Some?)
    && (p.hasRelatedQuantity <==> d.relatedQuantity.Some?) && p.priceMinor == d.priceMinor
    && p.grossAmountMinor == d.grossAmountMinor && p.feesMinor == d.feesMinor && p.taxesMinor == d.taxesMinor
    && p.externalProvider == d.externalProvider && p.externalReference == d.externalReference
    && Defaulted(metadata, "{}", p.metadata)
  }

  /** The assets a body names are active, and not one asset twice where the type
      relates two. */
  predicate NamesActiveAssets(active: set<AssetId>, asset: Option<AssetId>, related: Option<AssetId>,
                              opType: OperationType) {
    && (asset.Some? ==> asset.value in active) && (related.Some? ==> related.value in active)
    && !(asset.Some? && asset == related && (opType == SpinOff || opType == SymbolChange || opType == Adjustment))
  }

  predicate BodyNamesActiveAssets(active: set<AssetId>, call: Call) {
    match call
    case Create(_, _, _, r) => NamesActiveAssets(active, r.asset, r.relatedAsset, r.opType)
    case Correct(_, _, _, _, r) => NamesActiveAssets(active, r.asset, r.relatedAsset, Adjustment)
    case _ => false
  }

  predicate PostsCash(status: Option<OperationStatus>, cash: Option<int>) {
    status == Some(Posted) && cash.Some? && cash.value != 0
  }

  /** The call posts an amount that is not in the base currency and sends no
      rate. */
  ghost predicate PostsWithoutRate(s: Sys, call: Call)
    requires call.portfolio in s.config.portfolios
  {
    && (call.Create? ==> PostsCash(call.create.status, call.create.cash) && call.create.rate.None?)
    && (call.Correct? ==> PostsCash(call.correction.status, call.correction.cash) && call.correction.rate.None?)
    && forall currency | InCurrency(s.tables, call, currency) :: currency != BaseOf(s.config, call.portfolio)
  }

  /** What a write under a fresh key is answered before its transaction. It goes
      on exactly when everything it names is there, the body and the assets are
      in order and no posted amount lacks a rate. */
  lemma FreshWriteAnswered(s: Sys, c: ClientId, call: Call, shapeOk: bool)
    requires c !in s.clients && IsWrite(call) && KeyOf(call) !in s.tables.records
    ensures var v := RunAll(s, [Arrive(c, call), Canonicalize(c), Lookup(c)] + [Validate(c, shapeOk)]);
            && v.tables == s.tables && c in v.clients
            && var phase := v.clients[c].phase;
               var inOrder := shapeOk && BodyAccepted(call) && BodyNamesActiveAssets(s.tables.activeAssets, call);
               if !Locates(s, call) then phase == Done(Rejected(404))
               else if AsksCancelled(call) then phase == Done(Rejected(400))
               else if call.Correct? && s.tables.operations[call.original].status != Posted
               then phase == Done(Rejected(409))
               else if !inOrder then phase == Done(Rejected(400))
               else if PostsWithoutRate(s, call) then phase == Done(Rejected(422))
               else phase.Validated?
  {
    var first := [Arrive(c, call), Canonicalize(c), Lookup(c)];
    RunAppend(s, first, [Validate(c, shapeOk)]);
    RunThree(s, Arrive(c, call), Canonicalize(c), Lookup(c));
    RunOne(RunAll(s, first), Validate(c, shapeOk));
    if Locates(s, call) && !AsksCancelled(call) {
      LookedUpFresh(s, c, call);
      var candidate := CandidateOf(s.tables, call).value;
      BodyOfCandidate(s.tables, call, candidate);
      if BodyAccepted(call) { RateOfCandidate(s, call, candidate); }
      ValidatedIff(RunAll(s, first), c, shapeOk);
    } else {
      TurnedAway(s, c, call, shapeOk);
    }
  }

  lemma TurnedAway(s: Sys, c: ClientId, call: Call, shapeOk: bool)
    requires c !in s.clients && IsWrite(call) && (!Locates(s, call) || AsksCancelled(call))
    ensures Exec(Exec(Exec(Exec(s, Arrive(c, call)), Canonicalize(c)), Lookup(c)), Validate(c, shapeOk))
              == s.(clients := s.clients[c :=
                   Client(call, None, Done(Rejected(if Locates(s, call) then 400 else 404)))])
  {
  }

  lemma LookedUpFresh(s: Sys, c: ClientId, call: Call)
    requires c !in s.clients && IsWrite(call) && KeyOf(call) !in s.tables.records
    requires Locates(s, call) && !AsksCancelled(call)
    ensures CandidateOf(s.tables, call).Some?
    ensures var candidate := CandidateOf(s.tables, call).value;
            var correctable := call.Correct? ==> s.tables.operations[call.original].status == Posted;
            Exec(Exec(Exec(s, Arrive(c, call)), Canonicalize(c)), Lookup(c))
              == s.(clients := s.clients[c := Client(call, Some(candidate),
                                                     Fresh(candidate, FingerprintOf(call, candidate), correctable))])
  {
    var s1 := Exec(s, Arrive(c, call));
    var s2 := Exec(s1, Canonicalize(c));
    assert s2.clients[c].phase.Canonical? && s2.tables == s.tables;
  }

  lemma BodyOfCandidate(t: Tables, call: Call, candidate: NewOperation)
    requires IsWrite(call) && CandidateOf(t, call) == Some(candidate)
    ensures CandidateAccepted(call, candidate) <==> BodyAccepted(call)
    ensures AssetsOk(t.activeAssets, candidate.asset, candidate.relatedAsset, candidate.opType) <==>
              BodyNamesActiveAssets(t.activeAssets, call)
  {
    var p := PayloadOf(candidate);
    match call
    case Create(_, _, _, r) =>
      assert PayloadIs(p, r.opType, r.asset, r.relatedAsset, r.corrected, r.cash, r.details, r.metadata);
    case Correct(_, _, _, o, r) =>
      assert PayloadIs(p, Adjustment, r.asset, r.relatedAsset, Some(o), r.cash, r.details, r.metadata);
  }

  lemma CurrencyOfCandidate(t: Tables, call: Call, candidate: NewOperation)
    requires IsWrite(call) && CandidateOf(t, call) == Some(candidate)
    ensures forall currency :: InCurrency(t, call, currency) <==> currency == candidate.currency
  {
  }

  lemma RateOfCandidate(s: Sys, call: Call, candidate: NewOperation)
    requires IsWrite(call) && CandidateOf(s.tables, call) == Some(candidate) && call.portfolio in s.config.portfolios
    requires DecimalAccepted(candidate.rate)
    ensures PostsWithoutRate(s, call) <==>
              candidate.status == Posted && !CrossCurrencyOk(candidate, BaseOf(s.config, call.portfolio))
  {
    CurrencyOfCandidate(s.tables, call, candidate);
    assert InCurrency(s.tables, call, candidate.currency);
  }

  lemma ValidatedIff(s: Sys, c: ClientId, shapeOk: bool)
    requires c in s.clients && s.clients[c].phase.Fresh? && s.clients[c].call.portfolio in s.config.portfolios
    ensures var Fresh(candidate, fingerprint, correctable) := s.clients[c].phase;
            var inOrder := shapeOk && CandidateAccepted(s.clients[c].call, candidate)
                           && AssetsOk(s.tables.activeAssets, candidate.asset, candidate.relatedAsset,
                                       candidate.opType);
            var rateOk := candidate.status == Posted ==>
                            CrossCurrencyOk(candidate, BaseOf(s.config, s.clients[c].call.portfolio));
            Exec(s, Validate(c, shapeOk)) == Move(s, c,
              if !correctable then Done(Rejected(409)) else if !inOrder then Done(Rejected(400))
              else if !rateOk then Done(Rejected(422)) else Validated(candidate, fingerprint))
  {
  }

  /** Switching an asset decides what it is for, and no other: a write that names
      an inactive asset is a 400 at best. */
  lemma SwitchedAsset(s: Sys, a: AssetId, active: bool, c: ClientId, call: Call, shapeOk: bool)
    requires c !in s.clients && IsWrite(call) && KeyOf(call) !in s.tables.records
    ensures var s' := Exec(s, SetAsset(a, active));
            && s' == s.(tables := s.tables.(activeAssets := s'.tables.activeAssets))
            && (forall b :: b in s'.tables.activeAssets <==> if b == a then active else b in s.tables.activeAssets)
    ensures !active && Names(call, a) ==>
              var v := RunAll(Exec(s, SetAsset(a, active)),
                              [Arrive(c, call), Canonicalize(c), Lookup(c)] + [Validate(c, shapeOk)]);
              c in v.clients && !v.clients[c].phase.Validated?
  {
    FreshWriteAnswered(Exec(s, SetAsset(a, active)), c, call, shapeOk);
  }

  predicate Names(call: Call, a: AssetId) {
    match call
    case Create(_, _, _, r) => r.asset == Some(a) || r.relatedAsset == Some(a)
    case Correct(_, _, _, _, r) => r.asset == Some(a) || r.relatedAsset == Some(a)
    case _ => false
  }

  // ----- Posts, cancels and patches -----

  /** What a post is answered when it reads its row. */
  lemma PostAnswered(s: Sys, c: ClientId, shapeOk: bool)
    requires c in s.clients && s.clients[c].phase == Arrived && s.clients[c].call.Post?
    ensures var call := s.clients[c].call;
            var phase := Exec(s, ReadForPost(c, shapeOk)).clients[c].phase;
            && Exec(s, ReadForPost(c, shapeOk)).tables == s.tables
            && if !Locates(s, call) then phase == Done(Rejected(404))
               else
                 var row := s.tables.operations[call.operation];
                 var inOrder := shapeOk && RowPayloadAccepted(row)
                                && NamesActiveAssets(s.tables.activeAssets, row.asset, row.relatedAsset, row.opType);
                 if row.status != OperationStatus.Pending then phase == Done(Rejected(409))
                 else if !inOrder then phase == Done(Rejected(400))
                 else if row.currency != BaseOf(s.config, call.portfolio) && row.cash != 0 && row.rate.None?
                 then phase == Done(Rejected(422))
                 else phase == ReadyToPost
  {
  }

  /** What a cancel is answered when it reads its row: a posted operation is a
      conflict, a cancelled one a success, and neither writes. */
  lemma CancelAnswered(s: Sys, c: ClientId)
    requires c in s.clients && s.clients[c].phase == Arrived && s.clients[c].call.Cancel?
    ensures var call := s.clients[c].call;
            var phase := Exec(s, ReadForCancel(c)).clients[c].phase;
            && Exec(s, ReadForCancel(c)).tables == s.tables
            && if !Locates(s, call) then phase == Done(Rejected(404))
               else match s.tables.operations[call.operation].status
                    case Posted => phase == Done(Rejected(409))
                    case Cancelled => phase == Done(Updated)
                    case Pending => phase == ReadyToCancel
  {
  }

  /** What a post or a cancel that was let through is answered at its commit, by
      what its row has become. */
  lemma CommitsAnswered(s: Sys, c: ClientId, slot: RequestId)
    requires c in s.clients
    requires (s.clients[c].call.Post? && s.clients[c].phase == ReadyToPost)
             || (s.clients[c].call.Cancel? && s.clients[c].phase == ReadyToCancel)
    requires InPortfolio(s.tables, s.clients[c].call.operation, s.clients[c].call.portfolio)
    requires SlotFor(s.tables.requests, s.clients[c].call.portfolio, slot)
    ensures var o := s.clients[c].call.operation;
            var u := Exec(s, if s.clients[c].call.Post? then CommitPost(c, slot, true) else CommitCancel(c, true));
            var row := s.tables.operations[o];
            if row.status == Posted then u.tables == s.tables && u.clients[c].phase == Done(DatabaseError)
            else if s.clients[c].call.Post?
            then u.tables.operations == s.tables.operations[o := row.(status := Posted)]
                 && u.clients[c].phase == Done(PostedNow(o, slot)) && PendingFor(u.tables.requests, slot, row.portfolio)
            else u.tables == s.tables.(operations := s.tables.operations[o := row.(status := Cancelled)])
                 && u.clients[c].phase == Done(Updated)
  {
  }
}
