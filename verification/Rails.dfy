/** Ranking the payment options of a provider over the registered rails. */
module Rails {
  import opened Common
  import opened Money

  const STELLAR: string := "stellar:testnet"
  const BASE: string := "eip155:84532"
  const AVALANCHE: string := "eip155:43113"

  datatype Rail = Rail(network: string, protocol: string, disabled: bool, feeRank: nat)

  const RAILS: seq<Rail> := [
    Rail(STELLAR, "stellar-mpp", false, 3), Rail(STELLAR, "stellar-contract-account", false, 2),
    Rail(BASE, "x402", false, 3), Rail(AVALANCHE, "x402", true, 2)]

  datatype PaymentOption = PaymentOption(protocol: string, network: string, available: bool, amount: int)

  /** What a quote is asked under: the environment's two switches, the wallet's balances and the caller's wishes. */
  datatype Terms = Terms(multichain: bool, baseSubmit: bool, balances: map<string, int>,
                         allowedNetworks: seq<string>, preferredNetwork: Option<string>)

  datatype Candidate = Candidate(option: PaymentOption, balanceSufficient: bool, executable: bool, score: int)

  datatype Quote = Quote(recommendation: Option<Candidate>, candidates: seq<Candidate>, bridgeSuggested: bool)

  function FindRail(o: PaymentOption, rails: seq<Rail>): Option<Rail> {
    if rails == [] then None
    else if rails[0].protocol == o.protocol && rails[0].network == o.network then Some(rails[0])
    else FindRail(o, rails[1..])
  }

  predicate ChainEnabled(t: Terms, network: string) { network == STELLAR || (network in {BASE, AVALANCHE} && t.multichain) }
  predicate SubmitEnabled(t: Terms, network: string) { network == BASE && t.baseSubmit }
  predicate KnownChain(network: string) { network in {STELLAR, BASE, AVALANCHE} }

  function Balance(t: Terms, network: string): int { if network in t.balances then t.balances[network] else 0 }

  predicate BalanceSufficient(t: Terms, o: PaymentOption) { CompareBaseUnits(Balance(t, o.network), o.amount) >= 0 }

  predicate Executable(t: Terms, o: PaymentOption) {
    var rail := FindRail(o, RAILS);
    && rail.Some? && KnownChain(o.network) && o.network in t.allowedNetworks && o.available && !rail.value.disabled
    && (o.network == STELLAR || (ChainEnabled(t, o.network) && SubmitEnabled(t, o.network)))
    && BalanceSufficient(t, o)
  }

  function Score(t: Terms, o: PaymentOption): int {
    if !Executable(t, o) then -1 else
    100 + FindRail(o, RAILS).value.feeRank
    + (if o.network == STELLAR then 2 else 0) + (if t.preferredNetwork == Some(o.network) then 1 else 0)
  }

  function CandidateOf(t: Terms, o: PaymentOption): Candidate {
    Candidate(o, BalanceSufficient(t, o), Executable(t, o), Score(t, o))
  }

  /** A comparator for a sort; the names of networks are compared by the host's locale order, some comparator. */
  type Comparator<!T> = (T, T) -> int

  ghost predicate TotalPreorder<T(!new)>(compare: Comparator<T>) {
    && (forall a, b :: compare(a, b) <= 0 || compare(b, a) <= 0)
    && (forall a, b :: compare(a, b) < 0 <==> compare(b, a) > 0)
    && (forall a, b, c :: compare(a, b) <= 0 && compare(b, c) <= 0 ==> compare(a, c) <= 0)
  }

  function CompareCandidates(locale: Comparator<string>, left: Candidate, right: Candidate): int {
    if right.score != left.score then right.score - left.score
    else if left.option.network == STELLAR && right.option.network != STELLAR then -1
    else if right.option.network == STELLAR && left.option.network != STELLAR then 1
    else locale(left.option.network, right.option.network)
  }

  /** The host's sort is stable: an element goes behind those it does not precede. */
  function Insert(locale: Comparator<string>, c: Candidate, sorted: seq<Candidate>): seq<Candidate> {
    if sorted == [] then [c]
    else if CompareCandidates(locale, c, sorted[0]) <= 0 then [c] + sorted
    else [sorted[0]] + Insert(locale, c, sorted[1..])
  }

  function Sort(locale: Comparator<string>, cs: seq<Candidate>): seq<Candidate> {
    if cs == [] then [] else Insert(locale, cs[0], Sort(locale, cs[1..]))
  }

  function FirstExecutable(cs: seq<Candidate>): Option<Candidate> {
    if cs == [] then None else if cs[0].executable then Some(cs[0]) else FirstExecutable(cs[1..])
  }

  function Candidates(t: Terms, options: seq<PaymentOption>): (cs: seq<Candidate>)
    ensures |cs| == |options| && forall i :: 0 <= i < |cs| ==> cs[i] == CandidateOf(t, options[i])
  {
    seq(|options|, i requires 0 <= i < |options| => CandidateOf(t, options[i]))
  }

  function MakeQuote(locale: Comparator<string>, t: Terms, options: seq<PaymentOption>): Quote {
    var candidates := Sort(locale, Candidates(t, options));
    var recommendation := FirstExecutable(candidates);
    Quote(recommendation, candidates, recommendation.None? && exists c :: c in candidates && !c.balanceSufficient)
  }

  // ---------- the order ----------

  /** Candidates are totally preordered, whatever locale orders the network names. */
  lemma CompareIsTotalPreorder(locale: Comparator<string>)
    requires TotalPreorder(locale)
    ensures forall a, b :: CompareCandidates(locale, a, b) <= 0 || CompareCandidates(locale, b, a) <= 0
    ensures forall a, b :: CompareCandidates(locale, a, b) < 0 <==> CompareCandidates(locale, b, a) > 0
    ensures forall a, b, c :: CompareCandidates(locale, a, b) <= 0 && CompareCandidates(locale, b, c) <= 0 ==> CompareCandidates(locale, a, c) <= 0
  {
  }

  ghost predicate Sorted(locale: Comparator<string>, cs: seq<Candidate>) {
    forall i, j :: 0 <= i < j < |cs| ==> CompareCandidates(locale, cs[i], cs[j]) <= 0
  }

  ghost predicate Before(locale: Comparator<string>, x: Candidate, cs: seq<Candidate>) {
    forall c :: c in cs ==> CompareCandidates(locale, x, c) <= 0
  }

  lemma SortedMeansHeadBeforeTail(locale: Comparator<string>, x: Candidate, cs: seq<Candidate>)
    ensures Sorted(locale, [x] + cs) <==> Before(locale, x, cs) && Sorted(locale, cs)
  {
    hide CompareCandidates;
    var all := [x] + cs;
    if Sorted(locale, all) {
      forall i, j | 0 <= i < j < |cs| ensures CompareCandidates(locale, cs[i], cs[j]) <= 0 {
        assert cs[i] == all[i + 1] && cs[j] == all[j + 1];
      }
      forall c | c in cs ensures CompareCandidates(locale, x, c) <= 0 {
        var j :| 0 <= j < |cs| && cs[j] == c;
        assert c == all[j + 1] && x == all[0];
      }
    }
  }

  lemma {:induction false} InsertPermutes(locale: Comparator<string>, c: Candidate, cs: seq<Candidate>)
    ensures multiset(Insert(locale, c, cs)) == multiset(cs) + multiset{c}
  {
    hide CompareCandidates;
    if cs != [] {
      assert cs == [cs[0]] + cs[1..];
      InsertPermutes(locale, c, cs[1..]);
    }
  }

  lemma {:induction false} InsertKeepsSorted(locale: Comparator<string>, c: Candidate, cs: seq<Candidate>)
    requires TotalPreorder(locale) && Sorted(locale, cs)
    ensures Sorted(locale, Insert(locale, c, cs))
  {
    hide CompareCandidates, Sorted, TotalPreorder;
    if cs == [] {
      SortedMeansHeadBeforeTail(locale, c, []);
      EmptySorted(locale);
      assert [c] + [] == [c];
    } else {
      CompareIsTotalPreorder(locale);
      var x, rest := cs[0], cs[1..];
      assert cs == [x] + rest;
      SortedMeansHeadBeforeTail(locale, x, rest);
      if CompareCandidates(locale, c, x) <= 0 {
        SortedMeansHeadBeforeTail(locale, c, cs);
      } else {
        InsertKeepsSorted(locale, c, rest);
        InsertPermutes(locale, c, rest);
        BeforeInserted(locale, x, c, rest);
        SortedMeansHeadBeforeTail(locale, x, Insert(locale, c, rest));
      }
    }
  }

  lemma EmptySorted(locale: Comparator<string>)
    ensures Sorted(locale, [])
  {
  }

  lemma BeforeInserted(locale: Comparator<string>, x: Candidate, c: Candidate, cs: seq<Candidate>)
    requires Before(locale, x, cs) && CompareCandidates(locale, x, c) <= 0
    ensures Before(locale, x, Insert(locale, c, cs))
  {
    hide CompareCandidates, Insert;
    InsertPermutes(locale, c, cs);
    forall y | y in Insert(locale, c, cs) ensures CompareCandidates(locale, x, y) <= 0 {
      assert y in multiset(Insert(locale, c, cs));
    }
  }

  lemma {:induction false} SortIsSortedPermutation(locale: Comparator<string>, cs: seq<Candidate>)
    requires TotalPreorder(locale)
    ensures Sorted(locale, Sort(locale, cs)) && multiset(Sort(locale, cs)) == multiset(cs)
  {
    hide CompareCandidates, Insert, TotalPreorder;
    if cs != [] {
      SortIsSortedPermutation(locale, cs[1..]);
      InsertPermutes(locale, cs[0], Sort(locale, cs[1..]));
      InsertKeepsSorted(locale, cs[0], Sort(locale, cs[1..]));
      assert cs == [cs[0]] + cs[1..];
    }
  }

  // ---------- the recommendation ----------

  lemma {:induction false} FirstOfSorted(locale: Comparator<string>, cs: seq<Candidate>)
    requires TotalPreorder(locale) && Sorted(locale, cs)
    ensures FirstExecutable(cs).None? <==> forall c :: c in cs ==> !c.executable
    ensures FirstExecutable(cs).Some? ==>
              var best := FirstExecutable(cs).value;
              best in cs && best.executable && forall c :: c in cs && c.executable ==> CompareCandidates(locale, best, c) <= 0
  {
    hide CompareCandidates, TotalPreorder, Sorted;
    if cs != [] {
      assert cs == [cs[0]] + cs[1..];
      CompareIsTotalPreorder(locale);
      SortedMeansHeadBeforeTail(locale, cs[0], cs[1..]);
      FirstOfSorted(locale, cs[1..]);
    }
  }

  /** The registered rails and switches leave only Stellar, and Base with both switches on. */
  lemma ExecutableNetworks(t: Terms, o: PaymentOption)
    requires Executable(t, o)
    ensures o.network == STELLAR || (o.network == BASE && t.multichain && t.baseSubmit)
    ensures o.network == STELLAR ==> Score(t, o) >= 104
    ensures o.network == BASE ==> Score(t, o) <= 104
  {
    RegisteredRail(o);
  }

  lemma RegisteredRail(o: PaymentOption)
    requires FindRail(o, RAILS).Some?
    ensures FindRail(o, RAILS).value in RAILS && FindRail(o, RAILS).value.network == o.network
    ensures FindRail(o, RAILS).value.protocol == o.protocol
  {
    FindRailIn(o, RAILS);
  }

  lemma {:induction false} FindRailIn(o: PaymentOption, rails: seq<Rail>)
    ensures match FindRail(o, rails)
            case Some(rail) => rail in rails && rail.network == o.network && rail.protocol == o.protocol
            case None => forall rail :: rail in rails ==> rail.network != o.network || rail.protocol != o.protocol
  {
    if rails != [] { FindRailIn(o, rails[1..]); }
  }

  /** Available, on an allowed network whose balance covers it, and for one of the two Stellar rails, or for Base's with both
      switches on. */
  ghost predicate Payable(t: Terms, o: PaymentOption) {
    && o.available && o.network in t.allowedNetworks
    && o.amount <= (if o.network in t.balances then t.balances[o.network] else 0)
    && (if o.network == "stellar:testnet" then o.protocol in {"stellar-mpp", "stellar-contract-account"}
        else o.network == "eip155:84532" && o.protocol == "x402" && t.multichain && t.baseSubmit)
  }

  lemma ExecutableExactly(t: Terms, o: PaymentOption)
    ensures Executable(t, o) <==> Payable(t, o)
    ensures !Executable(t, o) ==> Score(t, o) == -1
    ensures Executable(t, o) ==>
              Score(t, o) == (if o.protocol == "stellar-mpp" then 105 else if o.protocol == "stellar-contract-account" then 104 else 103)
                             + (if t.preferredNetwork == Some(o.network) then 1 else 0)
  {
    FindRailIn(o, RAILS);
    RailsAreDistinct(o);
  }

  /** The protocol of an option pays off in this order. */
  function Preference(o: PaymentOption): nat {
    if o.protocol == "stellar-mpp" then 0 else if o.protocol == "stellar-contract-account" then 1 else 2
  }

  /** The recommendation in plain terms: there is one exactly when some option is payable; it is payable, and among the payable
      ones MPP on Stellar comes first, then the contract account, then Base, whatever network is preferred. */
  lemma RecommendationIsExact(locale: Comparator<string>, t: Terms, options: seq<PaymentOption>)
    requires TotalPreorder(locale)
    ensures var r := MakeQuote(locale, t, options).recommendation;
            && (r.Some? <==> exists o :: o in options && Payable(t, o))
            && (r.Some? ==> r.value.option in options && Payable(t, r.value.option)
                            && forall o :: o in options && Payable(t, o) ==> Preference(r.value.option) <= Preference(o))
  {
    hide Executable, Score, FindRail, Sort, FirstExecutable, Payable;
    RecommendationIsBest(locale, t, options);
    var r := MakeQuote(locale, t, options).recommendation;
    forall o ensures Executable(t, o) <==> Payable(t, o) { ExecutableExactly(t, o); }
    if r.Some? {
      RecommendedIsOffered(locale, t, options);
      forall o | o in options && Payable(t, o) ensures Preference(r.value.option) <= Preference(o) {
        PreferenceFollowsOrder(locale, t, r.value.option, o);
      }
    }
  }

  lemma RecommendedIsOffered(locale: Comparator<string>, t: Terms, options: seq<PaymentOption>)
    requires TotalPreorder(locale) && MakeQuote(locale, t, options).recommendation.Some?
    ensures var c := MakeQuote(locale, t, options).recommendation.value; c == CandidateOf(t, c.option)
  {
    hide Executable, Score, FindRail, Sort, FirstExecutable, CompareCandidates, TotalPreorder;
    SortedCandidates(locale, t, options);
    FirstOfSorted(locale, Sort(locale, Candidates(t, options)));
    assert Offered(t, options, MakeQuote(locale, t, options).recommendation.value);
  }

  lemma PreferenceFollowsOrder(locale: Comparator<string>, t: Terms, best: PaymentOption, o: PaymentOption)
    requires Payable(t, best) && Payable(t, o)
    requires CompareCandidates(locale, CandidateOf(t, best), CandidateOf(t, o)) <= 0
    ensures Preference(best) <= Preference(o)
  {
    hide Executable, Score, FindRail;
    ExecutableExactly(t, best);
    ExecutableExactly(t, o);
  }

  lemma RailsAreDistinct(o: PaymentOption)
    ensures RAILS[0] in RAILS && RAILS[1] in RAILS && RAILS[2] in RAILS && RAILS[3] in RAILS
    ensures forall r :: r in RAILS ==> r in {RAILS[0], RAILS[1], RAILS[2], RAILS[3]}
  {
  }

  ghost predicate Offered(t: Terms, options: seq<PaymentOption>, c: Candidate) {
    exists o :: o in options && c == CandidateOf(t, o)
  }

  lemma SortedCandidates(locale: Comparator<string>, t: Terms, options: seq<PaymentOption>)
    requires TotalPreorder(locale)
    ensures var cs := Sort(locale, Candidates(t, options));
            Sorted(locale, cs) && forall c :: c in cs <==> Offered(t, options, c)
  {
    var given := Candidates(t, options);
    var cs := Sort(locale, given);
    SortIsSortedPermutation(locale, given);
    forall c ensures c in cs <==> Offered(t, options, c) {
      assert c in cs <==> c in multiset(given);
      if c in given {
        var i :| 0 <= i < |given| && given[i] == c;
        assert options[i] in options;
      }
      if o :| o in options && c == CandidateOf(t, o) {
        var i :| 0 <= i < |options| && options[i] == o;
        assert given[i] == c;
      }
    }
  }

  /** For every list of options, balances and wishes: the recommendation is missing exactly when nothing is executable;
      otherwise it is an executable option that no other executable one precedes, a Stellar option whenever one is
      executable whatever network is preferred, otherwise a Base one with both switches on, and never Avalanche. */
  lemma RecommendationIsBest(locale: Comparator<string>, t: Terms, options: seq<PaymentOption>)
    requires TotalPreorder(locale)
    ensures var r := MakeQuote(locale, t, options).recommendation;
            && (r.None? <==> forall o :: o in options ==> !Executable(t, o))
            && (r.Some? ==>
                  && r.value.option in options && Executable(t, r.value.option)
                  && (forall o :: o in options && Executable(t, o) ==> CompareCandidates(locale, r.value, CandidateOf(t, o)) <= 0)
                  && r.value.option.network != AVALANCHE
                  && (if exists o :: o in options && Executable(t, o) && o.network == STELLAR then r.value.option.network == STELLAR
                      else r.value.option.network == BASE && t.multichain && t.baseSubmit))
  {
    hide Executable, Score, FindRail, Sort, FirstExecutable;
    var cs := Sort(locale, Candidates(t, options));
    SortedCandidates(locale, t, options);
    FirstOfSorted(locale, cs);
    forall o | o in options ensures CandidateOf(t, o) in cs {
      assert Offered(t, options, CandidateOf(t, o));
    }
    var r := FirstExecutable(cs);
    if r.Some? {
      assert Offered(t, options, r.value);
      ExecutableNetworks(t, r.value.option);
      forall o | o in options && Executable(t, o) && o.network == STELLAR ensures r.value.option.network == STELLAR {
        ExecutableNetworks(t, o);
        assert CompareCandidates(locale, r.value, CandidateOf(t, o)) <= 0;
      }
    } else {
      forall o | o in options ensures !Executable(t, o) {
        assert CandidateOf(t, o) in cs;
      }
    }
  }

  /** A bridge is suggested exactly when nothing is executable and some option lacks balance. */
  lemma BridgeIsSuggestedForLackOfBalance(locale: Comparator<string>, t: Terms, options: seq<PaymentOption>)
    requires TotalPreorder(locale)
    ensures MakeQuote(locale, t, options).bridgeSuggested <==>
              && (forall o :: o in options ==> !Executable(t, o))
              && (exists o :: o in options && Balance(t, o.network) < o.amount)
  {
    hide Executable, Score, FindRail, Sort, FirstExecutable, CompareCandidates;
    RecommendationIsBest(locale, t, options);
    SortedCandidates(locale, t, options);
    var cs := Sort(locale, Candidates(t, options));
    if c :| c in cs && !c.balanceSufficient {
      assert Offered(t, options, c);
    }
    if o :| o in options && Balance(t, o.network) < o.amount {
      assert Offered(t, options, CandidateOf(t, o));
    }
  }
}
