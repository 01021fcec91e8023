/** Scope expansion: `ResourceService::verify` and the laws of its claim merge. */
module ClaimMerge {
  import opened Text
  import opened Policy

  type ScopeMappings = map<string, ScopeMapping>

  // ---------------------------------------------------------------- per-key specification

  /** What one scope contributes to a claim key: its value, or nothing. */
  function Contribution(scope: string, sms: ScopeMappings, key: string): seq<Json> {
    if scope in sms && key in sms[scope].claims then [sms[scope].claims[key]] else []
  }

  /** All definitions of `key` among `scopes`, in scope order. */
  function Definitions(scopes: seq<string>, sms: ScopeMappings, key: string): seq<Json> {
    if scopes == [] then []
    else Definitions(scopes[..|scopes| - 1], sms, key) + Contribution(scopes[|scopes| - 1], sms, key)
  }

  predicate AllStrings(values: seq<Json>) {
    forall i :: 0 <= i < |values| ==> values[i].JString?
  }

  /** Two definitions of which at least one is not a string cannot be combined. */
  predicate Clash(values: seq<Json>) {
    |values| >= 2 && !AllStrings(values)
  }

  /** The string definitions, in order. */
  function Texts(values: seq<Json>): seq<string> {
    if values == [] then []
    else
      var last := values[|values| - 1];
      Texts(values[..|values| - 1]) + if last.JString? then [last.text] else []
  }

  function Combined(values: seq<Json>): Json
    requires values != [] && !Clash(values)
  {
    if |values| == 1 then values[0] else JString(Join(Texts(values)))
  }

  function ClaimKeys(scopes: seq<string>, sms: ScopeMappings): set<string> {
    set s, k | s in scopes && s in sms && k in sms[s].claims :: k
  }

  predicate Mergeable(scopes: seq<string>, sms: ScopeMappings) {
    forall k :: k in ClaimKeys(scopes, sms) ==> !Clash(Definitions(scopes, sms, k))
  }

  lemma {:induction false} DefinedIffKey(scopes: seq<string>, sms: ScopeMappings)
    ensures forall k :: k in ClaimKeys(scopes, sms) <==> Definitions(scopes, sms, k) != []
  {
    if scopes != [] {
      var init, last := scopes[..|scopes| - 1], scopes[|scopes| - 1];
      DefinedIffKey(init, sms);
      assert scopes == init + [last];
      forall k ensures k in ClaimKeys(scopes, sms) <==> Definitions(scopes, sms, k) != [] {
        assert k in ClaimKeys(scopes, sms) <==> k in ClaimKeys(init, sms) || k in ClaimKeys([last], sms);
        assert k in ClaimKeys([last], sms) <==> Contribution(last, sms, k) != [];
      }
    }
  }

  function Merged(scopes: seq<string>, sms: ScopeMappings): (claims: Claims)
    requires Mergeable(scopes, sms)
  {
    DefinedIffKey(scopes, sms);
    map k | k in ClaimKeys(scopes, sms) :: Combined(Definitions(scopes, sms, k))
  }

  // ---------------------------------------------------------------- the merge loop

  /** `claims` holds at `key` exactly the combination of `values`. */
  ghost predicate Holds(claims: Claims, key: string, values: seq<Json>) {
    !Clash(values) &&
    (key in claims <==> values != []) &&
    (values != [] ==> claims[key] == Combined(values))
  }

  lemma {:induction false} TextsOfStrings(values: seq<Json>)
    requires AllStrings(values)
    ensures |Texts(values)| == |values|
    ensures forall i :: 0 <= i < |values| ==> Texts(values)[i] == values[i].text
  {
    if values != [] { TextsOfStrings(values[..|values| - 1]); }
  }

  lemma CombinedStrings(values: seq<Json>)
    requires values != [] && !Clash(values)
    ensures Combined(values).JString? <==> AllStrings(values)
    ensures AllStrings(values) ==> Combined(values).text == Join(Texts(values))
  {
  }

  /** Appending one more definition: what the loop body's three-way match decides. */
  lemma ExtendDefinitions(values: seq<Json>, v: Json)
    requires values != [] && !Clash(values)
    ensures Clash(values + [v]) <==> !(Combined(values).JString? && v.JString?)
    ensures Combined(values).JString? && v.JString? ==>
      Combined(values + [v]) == JString(Combined(values).text + " " + v.text)
  {
    CombinedStrings(values);
    var more := values + [v];
    assert more[|more| - 1] == v && more[..|more| - 1] == values;
    assert AllStrings(more) <==> AllStrings(values) && v.JString? by {
      assert forall i :: 0 <= i < |values| ==> more[i] == values[i];
    }
    if AllStrings(more) {
      CombinedStrings(more);
      TextsOfStrings(values);
      var ts := Texts(more);
      assert ts[|ts| - 1] == v.text && ts[..|ts| - 1] == Texts(values);
    }
  }

  lemma {:induction false} DefinitionsOfPrefix(scopes: seq<string>, n: nat, sms: ScopeMappings, key: string)
    requires n <= |scopes|
    ensures Definitions(scopes[..n], sms, key) <= Definitions(scopes, sms, key)
    decreases |scopes|
  {
    if n == |scopes| {
      assert scopes[..n] == scopes;
    } else {
      var init := scopes[..|scopes| - 1];
      DefinitionsOfPrefix(init, n, sms, key);
      assert init[..n] == scopes[..n];
    }
  }

  lemma ClashPersists(scopes: seq<string>, n: nat, sms: ScopeMappings, key: string)
    requires n <= |scopes| && Clash(Definitions(scopes[..n], sms, key))
    ensures Clash(Definitions(scopes, sms, key)) && key in ClaimKeys(scopes, sms)
    ensures Definitions(scopes, sms, key)[0] == Definitions(scopes[..n], sms, key)[0]
  {
    DefinitionsOfPrefix(scopes, n, sms, key);
    var few, all := Definitions(scopes[..n], sms, key), Definitions(scopes, sms, key);
    var i :| 0 <= i < |few| && !few[i].JString?;
    assert all[i] == few[i] && all[0] == few[0];
    DefinedIffKey(scopes, sms);
  }

  ghost predicate HoldsAll(claims: Claims, scopes: seq<string>, sms: ScopeMappings) {
    forall k :: Holds(claims, k, Definitions(scopes, sms, k))
  }

  /** An error names a key that really clashes, and says how. */
  ghost predicate NamesClash(e: ResourceError, scopes: seq<string>, sms: ScopeMappings) {
    e.ClaimConflict? &&
    var values := Definitions(scopes, sms, e.key);
    Clash(values) && (e.why == ConflictingTypes <==> values[0].JString?)
  }

  /** The types conflict when the first definition is a string, and otherwise the key is defined twice. */
  lemma ClashIsExplained(e: ResourceError, scopes: seq<string>, sms: ScopeMappings)
    requires NamesClash(e, scopes, sms)
    ensures e.ClaimConflict? && |Definitions(scopes, sms, e.key)| >= 2
    ensures exists i :: 0 <= i < |Definitions(scopes, sms, e.key)| && !Definitions(scopes, sms, e.key)[i].JString?
    ensures e.why == if Definitions(scopes, sms, e.key)[0].JString? then ConflictingTypes else DefinedTwice
  {
  }

  lemma DefinitionsSnoc(scopes: seq<string>, s: string, sms: ScopeMappings, key: string)
    ensures Definitions(scopes + [s], sms, key) == Definitions(scopes, sms, key) + Contribution(s, sms, key)
  {
  }

  /** The state of the inner loop: keys still to visit hold the earlier scopes' combination. */
  ghost predicate HoldsPartly(claims: Claims, earlier: seq<string>, s: string, sms: ScopeMappings, todo: set<string>) {
    forall k :: Holds(claims, k, if k in todo then Definitions(earlier, sms, k) else Definitions(earlier + [s], sms, k))
  }

  lemma VisitKey(claims: Claims, earlier: seq<string>, s: string, sms: ScopeMappings, todo: set<string>,
                 key: string, value: Json)
    requires key in todo && HoldsPartly(claims, earlier, s, sms, todo)
    requires Holds(claims[key := value], key, Definitions(earlier + [s], sms, key))
    ensures HoldsPartly(claims[key := value], earlier, s, sms, todo - {key})
  {
  }

  /** The three-way match of the loop body, for one key. */
  lemma MatchOne(claims: Claims, key: string, v: Json, sofar: seq<Json>)
    requires Holds(claims, key, sofar)
    ensures key !in claims ==> Holds(claims[key := v], key, sofar + [v])
    ensures key in claims && claims[key].JString? && v.JString? ==>
      Holds(claims[key := JString(claims[key].text + " " + v.text)], key, sofar + [v])
    ensures key in claims && !(claims[key].JString? && v.JString?) ==>
      Clash(sofar + [v]) && ((sofar + [v])[0].JString? <==> claims[key].JString?)
  {
    if key in claims {
      ExtendDefinitions(sofar, v);
      CombinedStrings(sofar);
    }
  }

  /** The inner loop: one scope's claims, visited in an arbitrary order. */
  method MergeScope(before: Claims, ghost earlier: seq<string>, s: string, sms: ScopeMappings)
    returns (r: Result<Claims, ResourceError>)
    requires s in sms && HoldsAll(before, earlier, sms)
    ensures r.Ok? ==> HoldsAll(r.value, earlier + [s], sms)
    ensures r.Err? ==> NamesClash(r.error, earlier + [s], sms)
  {
    var claims := before;
    var todo := sms[s].claims.Keys;
    assert HoldsPartly(claims, earlier, s, sms, todo) by {
      forall k | k !in todo ensures Definitions(earlier + [s], sms, k) == Definitions(earlier, sms, k) {
        DefinitionsSnoc(earlier, s, sms, k);
      }
    }
    while todo != {}
      invariant todo <= sms[s].claims.Keys
      invariant HoldsPartly(claims, earlier, s, sms, todo)
      decreases |todo|
    {
      var k :| k in todo;
      var v := sms[s].claims[k];
      DefinitionsSnoc(earlier, s, sms, k);
      assert Holds(claims, k, Definitions(earlier, sms, k));
      MatchOne(claims, k, v, Definitions(earlier, sms, k));
      if k in claims && !(claims[k].JString? && v.JString?) {
        return Err(ClaimConflict(k, if claims[k].JString? then ConflictingTypes else DefinedTwice));
      }
      var value := if k in claims then JString(claims[k].text + " " + v.text) else v;
      VisitKey(claims, earlier, s, sms, todo, k, value);
      claims, todo := claims[k := value], todo - {k};
    }
    return Ok(claims);
  }

  lemma SkipScope(claims: Claims, earlier: seq<string>, s: string, sms: ScopeMappings)
    requires s !in sms && HoldsAll(claims, earlier, sms)
    ensures HoldsAll(claims, earlier + [s], sms)
  {
    forall k ensures Holds(claims, k, Definitions(earlier + [s], sms, k)) {
      DefinitionsSnoc(earlier, s, sms, k);
      assert Definitions(earlier + [s], sms, k) == Definitions(earlier, sms, k);
    }
  }

  lemma FailurePersists(e: ResourceError, scopes: seq<string>, n: nat, sms: ScopeMappings)
    requires n <= |scopes| && NamesClash(e, scopes[..n], sms)
    ensures NamesClash(e, scopes, sms) && !Mergeable(scopes, sms)
  {
    ClashPersists(scopes, n, sms, e.key);
  }

  lemma NothingMerged(scopes: seq<string>, sms: ScopeMappings)
    ensures HoldsAll(map[], scopes[..0], sms)
  {
    assert scopes[..0] == [];
  }

  /** One turn of the outer loop: a scope without a mapping adds nothing. */
  method MergeNext(claims: Claims, scopes: seq<string>, i: nat, sms: ScopeMappings)
    returns (r: Result<Claims, ResourceError>)
    requires i < |scopes| && HoldsAll(claims, scopes[..i], sms)
    ensures r.Ok? ==> HoldsAll(r.value, scopes[..i + 1], sms)
    ensures r.Err? ==> NamesClash(r.error, scopes, sms) && !Mergeable(scopes, sms)
  {
    var s := scopes[i];
    assert scopes[..i + 1] == scopes[..i] + [s];
    if s in sms {
      r := MergeScope(claims, scopes[..i], s, sms);
      if r.Err? { FailurePersists(r.error, scopes, i + 1, sms); }
    } else {
      SkipScope(claims, scopes[..i], s, sms);
      r := Ok(claims);
    }
  }

  /** The merge loop. It fails exactly when some key clashes, naming such a key, and otherwise
      builds the per-key combination. */
  method MergeClaims(scopes: seq<string>, sms: ScopeMappings) returns (r: Result<Claims, ResourceError>)
    ensures r.Ok? <==> Mergeable(scopes, sms)
    ensures r.Ok? ==> r.value == Merged(scopes, sms)
    ensures r.Err? ==> NamesClash(r.error, scopes, sms)
  {
    NothingMerged(scopes, sms);
    var claims: Claims := map[];
    var i := 0;
    while i < |scopes|
      invariant 0 <= i <= |scopes|
      invariant HoldsAll(claims, scopes[..i], sms)
    {
      r := MergeNext(claims, scopes, i, sms);
      if r.Err? { return; }
      claims := r.value;
      i := i + 1;
    }
    assert scopes[..i] == scopes;
    HoldsAllIsMerged(claims, scopes, sms);
    return Ok(claims);
  }

  lemma HoldsAllIsMerged(claims: Claims, scopes: seq<string>, sms: ScopeMappings)
    requires HoldsAll(claims, scopes, sms)
    ensures Mergeable(scopes, sms) && claims == Merged(scopes, sms)
  {
    DefinedIffKey(scopes, sms);
    forall k ensures k in claims <==> k in ClaimKeys(scopes, sms) {
      assert Holds(claims, k, Definitions(scopes, sms, k));
    }
  }

  // ---------------------------------------------------------------- verify

  datatype VerificationResult = VerificationResult(verified: bool, claims: Claims, audiences: set<string>)

  /** The three answers of `verify` that do not come from a failing store. */
  datatype Verdict = Refused | Conflicting | Granted(claims: Claims, audiences: set<string>)

  function VerdictFor(pair: Option<MappingPair>, scopes: seq<string>): Verdict {
    if pair.None? || !(Elems(scopes) <= pair.value.resourceMapping.scopes) then Refused
    else
      var listing := BTreeSetOf(scopes);
      if Mergeable(listing, pair.value.scopeMappings)
      then Granted(Merged(listing, pair.value.scopeMappings), pair.value.resourceMapping.audiences)
      else Conflicting
  }

  /** `ResourceService::verify` once the store has answered. */
  method Verify(resolved: Result<Option<MappingPair>, ResourceError>, scopes: seq<string>)
    returns (r: Result<VerificationResult, ResourceError>)
    ensures resolved.Err? ==> r == Err(resolved.error)
    ensures resolved.Ok? ==>
      match VerdictFor(resolved.value, scopes)
      case Refused => r == Ok(VerificationResult(false, map[], {}))
      case Granted(claims, audiences) => r == Ok(VerificationResult(true, claims, audiences))
      case Conflicting =>
        r.Err? && NamesClash(r.error, BTreeSetOf(scopes), resolved.value.value.scopeMappings)
  {
    var listing := BTreeSetOf(scopes);
    if resolved.Err? { return Err(resolved.error); }
    if resolved.value.None? { return Ok(VerificationResult(false, map[], {})); }
    var pair := resolved.value.value;
    var i := 0;
    while i < |listing|
      invariant 0 <= i <= |listing|
      invariant forall j :: 0 <= j < i ==> listing[j] in pair.resourceMapping.scopes
    {
      if listing[i] !in pair.resourceMapping.scopes {
        assert listing[i] in Elems(scopes);
        return Ok(VerificationResult(false, map[], {}));
      }
      i := i + 1;
    }
    assert Elems(scopes) <= pair.resourceMapping.scopes;
    var merged := MergeClaims(listing, pair.scopeMappings);
    if merged.Err? { return Err(merged.error); }
    return Ok(VerificationResult(true, merged.value, pair.resourceMapping.audiences));
  }

  // ---------------------------------------------------------------- laws

  /** Order and repetition in the request do not matter. */
  lemma VerdictDependsOnScopeSet(pair: Option<MappingPair>, a: seq<string>, b: seq<string>)
    requires Elems(a) == Elems(b)
    ensures VerdictFor(pair, a) == VerdictFor(pair, b)
  {
    SortedListingUnique(BTreeSetOf(a), BTreeSetOf(b));
  }

  lemma {:induction false} DefinitionsAgree(scopes: seq<string>, a: ScopeMappings, b: ScopeMappings, key: string)
    requires forall s :: s in scopes ==> Contribution(s, a, key) == Contribution(s, b, key)
    ensures Definitions(scopes, a, key) == Definitions(scopes, b, key)
  {
    if scopes != [] {
      assert scopes[|scopes| - 1] in scopes;
      DefinitionsAgree(scopes[..|scopes| - 1], a, b, key);
    }
  }

  lemma MergeAgrees(scopes: seq<string>, a: ScopeMappings, b: ScopeMappings)
    requires forall k :: Definitions(scopes, a, k) == Definitions(scopes, b, k)
    ensures Mergeable(scopes, a) <==> Mergeable(scopes, b)
    ensures Mergeable(scopes, a) ==> Merged(scopes, a) == Merged(scopes, b)
  {
    DefinedIffKey(scopes, a);
    DefinedIffKey(scopes, b);
    assert forall k :: k in ClaimKeys(scopes, a) <==> k in ClaimKeys(scopes, b);
  }

  /** Two mapping pairs that agree on the mapping and on the requested scopes get the same verdict. */
  lemma VerdictIsLocal(p: MappingPair, q: MappingPair, scopes: seq<string>)
    requires p.resourceMapping == q.resourceMapping
    requires forall s :: s in scopes ==>
      (s in p.scopeMappings <==> s in q.scopeMappings) &&
      (s in p.scopeMappings ==> p.scopeMappings[s] == q.scopeMappings[s])
    ensures VerdictFor(Some(p), scopes) == VerdictFor(Some(q), scopes)
  {
    var listing := BTreeSetOf(scopes);
    forall s | s in listing ensures s in scopes { assert s in Elems(scopes); }
    forall k ensures Definitions(listing, p.scopeMappings, k) == Definitions(listing, q.scopeMappings, k) {
      DefinitionsAgree(listing, p.scopeMappings, q.scopeMappings, k);
    }
    MergeAgrees(listing, p.scopeMappings, q.scopeMappings);
  }

  lemma {:induction false} SubseqExtend<T>(a: seq<T>, b: seq<T>, tail: seq<T>)
    requires Subseq(a, b) && |tail| <= 1
    ensures Subseq(a + tail, b + tail) && Subseq(a, b + tail)
  {
    if tail == [] {
      assert a + tail == a && b + tail == b;
    } else {
      assert (a + tail)[..|a + tail| - 1] == a && (b + tail)[..|b + tail| - 1] == b;
    }
  }

  lemma {:induction false} DefinitionsOfSubseq(a: seq<string>, b: seq<string>, sms: ScopeMappings, key: string)
    requires Subseq(a, b)
    ensures Subseq(Definitions(a, sms, key), Definitions(b, sms, key))
    decreases |b|
  {
    if a != [] {
      var b', c := b[..|b| - 1], Contribution(b[|b| - 1], sms, key);
      if Subseq(a, b') {
        DefinitionsOfSubseq(a, b', sms, key);
        SubseqExtend(Definitions(a, sms, key), Definitions(b', sms, key), c);
      } else {
        DefinitionsOfSubseq(a[..|a| - 1], b', sms, key);
        SubseqExtend(Definitions(a[..|a| - 1], sms, key), Definitions(b', sms, key), c);
      }
    }
  }

  lemma {:induction false} TextsOfSubseq(a: seq<Json>, b: seq<Json>)
    requires Subseq(a, b)
    ensures Subseq(Texts(a), Texts(b))
    decreases |b|
  {
    if a != [] {
      var b', v := b[..|b| - 1], b[|b| - 1];
      var t := if v.JString? then [v.text] else [];
      if Subseq(a, b') {
        TextsOfSubseq(a, b');
        SubseqExtend(Texts(a), Texts(b'), t);
      } else {
        TextsOfSubseq(a[..|a| - 1], b');
        SubseqExtend(Texts(a[..|a| - 1]), Texts(b'), t);
      }
    }
  }

  /** The string parts that a request puts into a claim, in scope order. */
  function Parts(scopes: seq<string>, sms: ScopeMappings, key: string): seq<string> {
    Texts(Definitions(BTreeSetOf(scopes), sms, key))
  }

  /** One key under narrowing: fewer definitions cannot clash, a non-string survives unchanged. */
  lemma NarrowKey(few: seq<Json>, many: seq<Json>)
    requires Subseq(few, many) && !Clash(many)
    ensures !Clash(few)
    ensures few != [] ==> many != []
    ensures few != [] ==> (Combined(few).JString? <==> Combined(many).JString?)
    ensures few != [] && !Combined(few).JString? ==> Combined(few) == Combined(many)
    ensures few != [] && Combined(few).JString? ==>
      && Combined(few).text == Join(Texts(few)) && Combined(many).text == Join(Texts(many))
      && Subseq(Texts(few), Texts(many))
  {
    SubseqMembers(few, many);
    TextsOfSubseq(few, many);
    if few != [] {
      assert AllStrings(many) ==> AllStrings(few) by {
        forall i | AllStrings(many) && 0 <= i < |few| ensures few[i].JString? { assert few[i] in many; }
      }
      assert |few| == 1 ==> few[0] in many;
      CombinedStrings(few);
      CombinedStrings(many);
    }
  }

  /** Narrowing is monotone: whatever is granted for a scope set is granted for every subset of it,
      with fewer claim keys, unchanged non-string values, and string values made of fewer parts in
      the same order. */
  lemma NarrowingIsMonotone(pair: Option<MappingPair>, small: seq<string>, big: seq<string>)
    requires Elems(small) <= Elems(big)
    requires VerdictFor(pair, big).Granted?
    ensures var few, many := VerdictFor(pair, small), VerdictFor(pair, big);
      && few.Granted?
      && few.audiences == many.audiences
      && few.claims.Keys <= many.claims.Keys
      && (forall k :: k in few.claims ==>
        (few.claims[k].JString? <==> many.claims[k].JString?) &&
        (!few.claims[k].JString? ==> few.claims[k] == many.claims[k]) &&
        (few.claims[k].JString? ==>
          var sms := pair.value.scopeMappings;
          && few.claims[k].text == Join(Parts(small, sms, k))
          && many.claims[k].text == Join(Parts(big, sms, k))
          && Subseq(Parts(small, sms, k), Parts(big, sms, k))))
  {
    var sms := pair.value.scopeMappings;
    var a, b := BTreeSetOf(small), BTreeSetOf(big);
    SubsetListingIsSubseq(a, b);
    DefinedIffKey(a, sms);
    DefinedIffKey(b, sms);
    forall k ensures Subseq(Definitions(a, sms, k), Definitions(b, sms, k)) { DefinitionsOfSubseq(a, b, sms, k); }
    forall k | k in ClaimKeys(a, sms)
      ensures k in ClaimKeys(b, sms) && !Clash(Definitions(a, sms, k))
    {
      SubseqMembers(Definitions(a, sms, k), Definitions(b, sms, k));
      NarrowKey(Definitions(a, sms, k), Definitions(b, sms, k));
    }
    forall k | k in ClaimKeys(a, sms)
      ensures var few, many := Merged(a, sms)[k], Merged(b, sms)[k];
        (few.JString? <==> many.JString?) && (!few.JString? ==> few == many) &&
        (few.JString? ==>
          && few.text == Join(Parts(small, sms, k)) && many.text == Join(Parts(big, sms, k))
          && Subseq(Parts(small, sms, k), Parts(big, sms, k)))
    {
      NarrowKey(Definitions(a, sms, k), Definitions(b, sms, k));
    }
  }

  /** Reading a merged string claim back as a space-separated list gives every contribution's own
      tokens, in scope order: none lost, none fused with a neighbour. */
  lemma MergedStringSplits(scopes: seq<string>, sms: ScopeMappings, key: string)
    requires Mergeable(scopes, sms) && key in ClaimKeys(scopes, sms)
    requires Merged(scopes, sms)[key].JString?
    ensures SplitWhitespace(Merged(scopes, sms)[key].text) == SplitAll(Texts(Definitions(scopes, sms, key)))
  {
    DefinedIffKey(scopes, sms);
    CombinedStrings(Definitions(scopes, sms, key));
    SplitOfJoin(Texts(Definitions(scopes, sms, key)));
  }

  /** Two elements at increasing indices are a subsequence. */
  lemma {:induction false} PairIsSubseq<T>(values: seq<T>, i: nat, j: nat)
    requires i < j < |values|
    ensures Subseq([values[i], values[j]], values)
    decreases |values|
  {
    var pair, init := [values[i], values[j]], values[..|values| - 1];
    if j < |values| - 1 {
      PairIsSubseq(init, i, j);
    } else {
      SingleIsSubseq(init, i);
      assert pair[..1] == [init[i]];
    }
  }

  lemma {:induction false} SingleIsSubseq<T>(values: seq<T>, i: nat)
    requires i < |values|
    ensures Subseq([values[i]], values)
    decreases |values|
  {
    if i < |values| - 1 {
      SingleIsSubseq(values[..|values| - 1], i);
    } else {
      assert [values[i]][..0] == [];
    }
  }

  predicate DefinesNonString(scope: string, sms: ScopeMappings, key: string) {
    scope in sms && key in sms[scope].claims && !sms[scope].claims[key].JString?
  }

  lemma {:induction false} NonStringFromScope(scopes: seq<string>, sms: ScopeMappings, key: string)
    ensures AllStrings(Definitions(scopes, sms, key)) <==> forall s :: s in scopes ==> !DefinesNonString(s, sms, key)
  {
    if scopes != [] {
      var init, last := scopes[..|scopes| - 1], scopes[|scopes| - 1];
      NonStringFromScope(init, sms, key);
      assert scopes == init + [last];
      var before, more := Definitions(init, sms, key), Contribution(last, sms, key);
      AllStringsAppend(before, more);
      assert AllStrings(more) <==> !DefinesNonString(last, sms, key) by {
        assert more != [] ==> more[0] == sms[last].claims[key];
      }
      assert (forall s :: s in scopes ==> !DefinesNonString(s, sms, key)) <==>
        (forall s :: s in init ==> !DefinesNonString(s, sms, key)) && !DefinesNonString(last, sms, key);
    }
  }

  lemma AllStringsAppend(a: seq<Json>, b: seq<Json>)
    ensures AllStrings(a + b) <==> AllStrings(a) && AllStrings(b)
  {
    assert forall i :: 0 <= i < |a| ==> (a + b)[i] == a[i];
    assert forall i :: 0 <= i < |b| ==> (a + b)[|a| + i] == b[i];
  }

  lemma PairDefinitions(a: string, b: string, sms: ScopeMappings, key: string)
    ensures Definitions([a, b], sms, key) == Contribution(a, sms, key) + Contribution(b, sms, key)
  {
    DefinitionsSnoc([], a, sms, key);
    DefinitionsSnoc([a], b, sms, key);
    assert [] + [a] == [a] && [a] + [b] == [a, b];
  }

  /** A claim key that two of the requested scopes define is not in itself a conflict. It is one exactly
      when some requested scope defines it as a non-string; otherwise the definitions are joined, these
      two among them and in scope order. */
  lemma SharedKey(scopes: seq<string>, i: nat, j: nat, sms: ScopeMappings, key: string, x: Json, y: Json)
    requires i < j < |scopes|
    requires Contribution(scopes[i], sms, key) == [x] && Contribution(scopes[j], sms, key) == [y]
    ensures Clash(Definitions(scopes, sms, key)) <==> exists s :: s in scopes && DefinesNonString(s, sms, key)
    ensures Mergeable(scopes, sms) ==>
      && key in Merged(scopes, sms) && x.JString? && y.JString?
      && Merged(scopes, sms)[key] == JString(Join(Texts(Definitions(scopes, sms, key))))
      && Subseq([x.text, y.text], Texts(Definitions(scopes, sms, key)))
  {
    PairIsSubseq(scopes, i, j);
    DefinitionsOfSubseq([scopes[i], scopes[j]], scopes, sms, key);
    PairDefinitions(scopes[i], scopes[j], sms, key);
    assert [x] + [y] == [x, y];
    SubseqMembers([x, y], Definitions(scopes, sms, key));
    NonStringFromScope(scopes, sms, key);
    DefinedIffKey(scopes, sms);
    if Mergeable(scopes, sms) { JoinedPair(Definitions(scopes, sms, key), x, y); }
  }

  lemma JoinedPair(values: seq<Json>, x: Json, y: Json)
    requires Subseq([x, y], values) && AllStrings(values)
    ensures x.JString? && y.JString? && Subseq([x.text, y.text], Texts(values))
  {
    SubseqMembers([x, y], values);
    StringMember(values, x);
    StringMember(values, y);
    TextsOfSubseq([x, y], values);
    TextsOfPair(x, y);
  }

  lemma StringMember(values: seq<Json>, x: Json)
    requires AllStrings(values)
    ensures x in values ==> x.JString?
  {
  }

  lemma TextsOfPair(x: Json, y: Json)
    requires x.JString? && y.JString?
    ensures Texts([x, y]) == [x.text, y.text]
  {
    TextsOfStrings([x, y]);
  }

  predicate Defines(scope: string, sms: ScopeMappings, key: string) {
    scope in sms && key in sms[scope].claims
  }

  lemma {:induction false} NoDefinition(scopes: seq<string>, sms: ScopeMappings, key: string)
    requires forall j :: 0 <= j < |scopes| ==> !Defines(scopes[j], sms, key)
    ensures Definitions(scopes, sms, key) == []
  {
    if scopes != [] { NoDefinition(scopes[..|scopes| - 1], sms, key); }
  }

  lemma {:induction false} OneDefinition(scopes: seq<string>, i: nat, sms: ScopeMappings, key: string)
    requires i < |scopes| && Defines(scopes[i], sms, key)
    requires forall j :: 0 <= j < |scopes| && j != i ==> !Defines(scopes[j], sms, key)
    ensures Definitions(scopes, sms, key) == [sms[scopes[i]].claims[key]]
  {
    var init := scopes[..|scopes| - 1];
    if i < |init| { OneDefinition(init, i, sms, key); } else { NoDefinition(init, sms, key); }
  }

  /** A key that only one of the requested scopes defines never clashes and keeps its value, string or not. */
  lemma SoleDefinition(scopes: seq<string>, i: nat, sms: ScopeMappings, key: string)
    requires i < |scopes| && scopes[i] in sms && key in sms[scopes[i]].claims
    requires forall j :: 0 <= j < |scopes| && j != i ==> !(scopes[j] in sms && key in sms[scopes[j]].claims)
    ensures !Clash(Definitions(scopes, sms, key))
    ensures Mergeable(scopes, sms) ==>
      key in Merged(scopes, sms) && Merged(scopes, sms)[key] == sms[scopes[i]].claims[key]
  {
    OneDefinition(scopes, i, sms, key);
    DefinedIffKey(scopes, sms);
  }

  lemma ListingOfTwo(a: string, b: string)
    requires Less(a, b)
    ensures BTreeSetOf([b, a]) == [a, b]
  {
    assert StrictlySorted([a, b]);
    assert Elems([b, a]) == {a, b} == Elems([a, b]);
    SortedListingUnique(BTreeSetOf([b, a]), [a, b]);
  }

  /** Two scopes that put a string into the same claim, asked for in the wrong order: the strings come out
      in the order of the names, `a` being the name that ends or has the smaller character at `n`. */
  lemma StringsJoinInNameOrder(pair: MappingPair, a: string, b: string, n: nat, key: string, x: string, y: string)
    requires n <= |a| && n < |b| && a[..n] == b[..n] && (n == |a| || a[n] < b[n])
    requires a in pair.scopeMappings && key in pair.scopeMappings[a].claims
    requires b in pair.scopeMappings && key in pair.scopeMappings[b].claims
    requires pair.scopeMappings[a].claims[key] == JString(x) && pair.scopeMappings[b].claims[key] == JString(y)
    requires VerdictFor(Some(pair), [b, a]).Granted?
    ensures var claims := VerdictFor(Some(pair), [b, a]).claims;
      key in claims && claims[key] == JString(x + " " + y)
  {
    LessFromWitness(a, b, n);
    ListingOfTwo(a, b);
    PairDefinitions(a, b, pair.scopeMappings, key);
    ExtendDefinitions([JString(x)], JString(y));
    DefinedIffKey([a, b], pair.scopeMappings);
  }

  // ---------------------------------------------------------------- reserved keys

  function DropReserved(claims: Claims): Claims {
    map k | k in claims && !IsReservedClaim(k) :: claims[k]
  }

  function DropReservedEach(sms: ScopeMappings): ScopeMappings {
    map s | s in sms :: ScopeMapping(sms[s].scope, DropReserved(sms[s].claims))
  }

  lemma {:induction false} DefinitionsDropReserved(scopes: seq<string>, sms: ScopeMappings, key: string)
    ensures Definitions(scopes, DropReservedEach(sms), key)
         == if IsReservedClaim(key) then [] else Definitions(scopes, sms, key)
  {
    if scopes != [] { DefinitionsDropReserved(scopes[..|scopes| - 1], sms, key); }
  }

  /** Filtering reserved keys after the merge, as issuance does, is the same as merging mappings that
      never had them. Filtering first succeeds exactly when no unreserved key clashes, so the code's
      order refuses more: it also refuses when only a reserved key clashes. */
  lemma FilterCommutesWithMerge(scopes: seq<string>, sms: ScopeMappings)
    ensures Mergeable(scopes, DropReservedEach(sms)) <==>
      (forall k :: k in ClaimKeys(scopes, sms) && !IsReservedClaim(k) ==> !Clash(Definitions(scopes, sms, k)))
    ensures Mergeable(scopes, sms) ==>
      && Mergeable(scopes, DropReservedEach(sms))
      && DropReserved(Merged(scopes, sms)) == Merged(scopes, DropReservedEach(sms))
  {
    CleanDefinitions(scopes, sms);
  }

  lemma CleanDefinitions(scopes: seq<string>, sms: ScopeMappings)
    ensures var clean := DropReservedEach(sms);
      && (forall k :: Definitions(scopes, clean, k) == if IsReservedClaim(k) then [] else Definitions(scopes, sms, k))
      && (forall k :: k in ClaimKeys(scopes, clean) <==> k in ClaimKeys(scopes, sms) && !IsReservedClaim(k))
  {
    var clean := DropReservedEach(sms);
    forall k ensures Definitions(scopes, clean, k)
                  == if IsReservedClaim(k) then [] else Definitions(scopes, sms, k)
    {
      DefinitionsDropReserved(scopes, sms, k);
    }
    DefinedIffKey(scopes, sms);
    DefinedIffKey(scopes, clean);
  }
}
