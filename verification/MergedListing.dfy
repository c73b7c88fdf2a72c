/**
 * Listing the keys of a namespace together with those of the legacy store: a page of the database is
 * merged with all legacy aliases, and as many of them are returned as fit a Binder response. Clients
 * continue past the last alias they were given.
 */
module MergedListing {
  import opened Tables
  import opened Ordering
  import opened Listing

  /** Estimated largest size of a Binder response in bytes. */
  const RESPONSE_SIZE_LIMIT: nat := 358400

  // ---------- How many descriptors fit ----------

  function DescriptorSize(alias: Alias): nat {
    4 + 8 + 4 + |alias|
  }

  function TotalSize(aliases: seq<Alias>): nat {
    if aliases == [] then 0 else TotalSize(aliases[..|aliases| - 1]) + DescriptorSize(aliases[|aliases| - 1])
  }

  /** `count` is the length of the longest prefix whose estimated size is within the limit. */
  ghost predicate SafeAmount(aliases: seq<Alias>, limit: nat, count: nat) {
    && count <= |aliases| && TotalSize(aliases[..count]) <= limit
    && (count < |aliases| ==> TotalSize(aliases[..count + 1]) > limit)
  }

  /** That length. */
  ghost function Fitting(aliases: seq<Alias>, limit: nat): (count: nat)
    ensures SafeAmount(aliases, limit, count)
  {
    if TotalSize(aliases) <= limit then assert aliases[..|aliases|] == aliases; |aliases| else
      var shorter := aliases[..|aliases| - 1];
      var count := Fitting(shorter, limit);
      assert aliases[..count] == shorter[..count];
      assert count < |shorter| ==> aliases[..count + 1] == shorter[..count + 1];
      assert aliases[..|aliases|] == aliases;
      count
  }

  lemma FittingUnique(aliases: seq<Alias>, limit: nat, count: nat)
    requires SafeAmount(aliases, limit, count)
    ensures count == Fitting(aliases, limit)
  {
    var other := Fitting(aliases, limit);
    if count < other {
      LongerIsLarger(aliases, count + 1, other);
    } else if other < count {
      LongerIsLarger(aliases, other + 1, count);
    }
  }

  /** estimate_safe_amount_to_return */
  method EstimateSafeAmount(aliases: seq<Alias>, limit: nat) returns (count: nat)
    ensures SafeAmount(aliases, limit, count)
  {
    count := 0;
    var bytes := 0;
    for i := 0 to |aliases|
      invariant count == i && bytes == TotalSize(aliases[..i]) && bytes <= limit
    {
      bytes := bytes + DescriptorSize(aliases[i]);
      assert aliases[..i + 1][..i] == aliases[..i];
      if bytes > limit {
        break;
      }
      count := count + 1;
    }
  }

  lemma {:induction false} LongerIsLarger(aliases: seq<Alias>, i: nat, j: nat)
    requires i <= j <= |aliases|
    ensures TotalSize(aliases[..i]) <= TotalSize(aliases[..j])
    decreases j
  {
    if i < j {
      LongerIsLarger(aliases, i, j - 1);
      assert aliases[..j][..j - 1] == aliases[..j - 1];
    }
  }

  /** The alias at an index is returned exactly if everything up to it fits. */
  lemma ReturnedExactly(aliases: seq<Alias>, limit: nat, count: nat, p: nat)
    requires SafeAmount(aliases, limit, count) && p < |aliases|
    ensures p < count <==> TotalSize(aliases[..p + 1]) <= limit
  {
    if p < count {
      LongerIsLarger(aliases, p + 1, count);
    } else {
      LongerIsLarger(aliases, count + 1, p + 1);
    }
  }

  // ---------- The answer ----------

  method RetainPast(aliases: seq<Alias>, past: Option<Alias>) returns (r: seq<Alias>)
    ensures Elements(r) == After(Elements(aliases), past)
  {
    if past.None? {
      return aliases;
    }
    r := [];
    for i := 0 to |aliases|
      invariant Elements(r) == set a | a in aliases[..i] && Less(past.value, a)
    {
      assert aliases[..i + 1] == aliases[..i] + [aliases[i]];
      if Less(past.value, aliases[i]) {
        Joined(r, [aliases[i]]);
        r := r + [aliases[i]];
      }
    }
    assert aliases[..|aliases|] == aliases;
  }

  /** merge_and_filter_key_entry_lists */
  method MergeAndFilter(legacy: seq<Alias>, page: seq<Alias>, past: Option<Alias>) returns (r: seq<Alias>)
    ensures r == Sorted(After(Elements(legacy), past) + Elements(page))
  {
    var later := RetainPast(legacy, past);
    Joined(later, page);
    Sorts(later + page);
    r := Dedup(SortUnstable(later + page));
    SortedUnique(r);
  }

  /** What the database aliases `all` and the legacy aliases past the starting point merge to. */
  ghost function Merged(all: seq<Alias>, limit: nat, legacy: set<Alias>): seq<Alias> {
    Sorted(legacy + Elements(Take(all, limit)))
  }

  /** What a client that goes on past an alias is given: the longest prefix that fits a response. */
  ghost function Answer(stored: set<Alias>, legacy: set<Alias>, past: Option<Alias>, limit: nat, size: nat): seq<Alias> {
    var merged := Merged(Sorted(After(stored, past)), limit, After(legacy, past));
    merged[..Fitting(merged, size)]
  }

  /** list_key_entries; `page` is the answer of the database query and `legacy` what the legacy store lists. */
  method ListKeyEntries(stored: set<Alias>, page: seq<Alias>, legacy: seq<Alias>, past: Option<Alias>) returns (r: seq<Alias>)
    requires page == Page(stored, past, PAGE_LIMIT)
    ensures r == Answer(stored, Elements(legacy), past, PAGE_LIMIT, RESPONSE_SIZE_LIMIT)
  {
    var merged := MergeAndFilter(legacy, page, past);
    var count := EstimateSafeAmount(merged, RESPONSE_SIZE_LIMIT);
    FittingUnique(merged, RESPONSE_SIZE_LIMIT, count);
    r := merged[..count];
  }

  // ---------- Which keys a client never gets ----------

  /** A client that continues past the last alias of the answer never gets `x`. */
  ghost predicate Lost(answer: seq<Alias>, x: Alias) {
    x !in answer && (answer == [] || !Less(answer[|answer| - 1], x))
  }

  ghost predicate Loses(all: seq<Alias>, legacy: set<Alias>, answer: seq<Alias>) {
    exists x :: (x in Elements(all) || x in legacy) && Lost(answer, x)
  }

  /** Database aliases that the page leaves out and that the legacy store does not have either. */
  function CutOff(all: seq<Alias>, limit: nat, legacy: set<Alias>): set<Alias> {
    if |all| <= limit then {} else Elements(all[limit..]) - legacy
  }

  function Before(s: set<Alias>, x: Alias): set<Alias> {
    set y | y in s && Less(y, x)
  }

  /** Already the first alias is too long for a response. */
  ghost predicate FirstTooLarge(all: seq<Alias>, limit: nat, legacy: set<Alias>, size: nat) {
    var sought := legacy + Elements(Take(all, limit));
    sought != {} && DescriptorSize(First(sought)) > size
  }

  /**
   * A legacy alias comes after the first alias that was cut off, and the page, the legacy aliases
   * before the cut and that alias fit one response together.
   */
  ghost predicate ReachesPastCut(all: seq<Alias>, limit: nat, legacy: set<Alias>, size: nat) {
    var cut := CutOff(all, limit, legacy);
    cut != {} &&
    var x := First(cut);
    After(legacy, Some(x)) != {} &&
    TotalSize(Sorted(Elements(Take(all, limit)) + Before(legacy, x) + {First(After(legacy, Some(x)))})) <= size
  }

  /** Where an alias that is not in it would stand in an increasing sequence. */
  lemma {:induction false} Place(m: seq<Alias>, x: Alias) returns (p: nat)
    requires Increasing(m) && x !in m
    ensures StandsAt(m, x, p)
  {
    if m == [] {
      p := 0;
    } else {
      var n := |m| - 1;
      assert Increasing(m[..n]) by { assert forall i :: 0 <= i < n ==> m[..n][i] == m[i]; }
      Total(m[n], x);
      if Less(m[n], x) {
        p := |m|;
        forall i | 0 <= i < n ensures Less(m[i], x) { Transitive(m[i], m[n], x); }
      } else {
        p := Place(m[..n], x);
        assert forall i :: 0 <= i < n ==> m[..n][i] == m[i];
      }
    }
  }

  /** `p` is where `x` would stand. */
  ghost predicate StandsAt(m: seq<Alias>, x: Alias, p: nat) {
    p <= |m| && (forall i :: 0 <= i < p ==> Less(m[i], x)) && (forall i :: p <= i < |m| ==> Less(x, m[i]))
  }

  lemma FirstPast(m: seq<Alias>, x: Alias, p: nat)
    requires Increasing(m) && StandsAt(m, x, p) && p < |m|
    ensures IsFirst(After(Elements(m), Some(x)), m[p])
  {
    forall y | y in After(Elements(m), Some(x)) ensures y == m[p] || Less(m[p], y) {
      var i :| 0 <= i < |m| && m[i] == y;
      if i < p { Asymmetric(y, x); }
    }
  }

  lemma NonePast(m: seq<Alias>, x: Alias)
    requires StandsAt(m, x, |m|)
    ensures After(Elements(m), Some(x)) == {}
  {
    forall y | y in After(Elements(m), Some(x)) ensures false {
      var i :| 0 <= i < |m| && m[i] == y;
      Asymmetric(x, y);
    }
  }

  /** The aliases up to the first one past `x` are those before `x` and that one. */
  lemma UpToPast(m: seq<Alias>, x: Alias, p: nat)
    requires Increasing(m) && StandsAt(m, x, p) && p < |m|
    ensures m[..p + 1] == Sorted(Before(Elements(m), x) + {m[p]})
  {
    var head := m[..p + 1];
    assert forall i :: 0 <= i < |head| ==> head[i] == m[i];
    forall y | y in head ensures y == m[p] || y in Before(Elements(m), x) {
      var i :| 0 <= i < |head| && head[i] == y;
    }
    forall y | y in Before(Elements(m), x) ensures y in head {
      var i :| 0 <= i < |m| && m[i] == y;
      if i >= p { Asymmetric(x, y); }
      assert head[i] == y;
    }
    assert head[p] == m[p];
    assert Elements(head) == Before(Elements(m), x) + {m[p]};
    SortedUnique(head);
  }

  lemma PageIsBeforeCut(all: seq<Alias>, limit: nat, x: Alias)
    requires Increasing(all) && limit < |all| && x in all[limit..]
    ensures forall y :: y in Elements(Take(all, limit)) ==> Less(y, x)
  {
    var j :| 0 <= j < |all[limit..]| && all[limit..][j] == x;
    forall y | y in Take(all, limit) ensures Less(y, x) {
      var i :| 0 <= i < limit && all[i] == y;
      assert Less(all[i], all[limit + j]);
    }
  }

  lemma TakenOrCut(all: seq<Alias>, limit: nat, x: Alias)
    requires x in all
    ensures x in Take(all, limit) || (|all| > limit && x in all[limit..])
  {
    if |all| > limit {
      assert all == all[..limit] + all[limit..];
    }
  }

  /** What was merged is returned, or comes after what was returned. */
  lemma MergedComesLater(m: seq<Alias>, count: nat, x: Alias)
    requires Increasing(m) && 0 < count <= |m| && x in m
    ensures !Lost(m[..count], x)
  {
    var i :| 0 <= i < |m| && m[i] == x;
    if i < count {
      assert m[..count][i] == x;
    }
  }

  lemma OthersAreNotLost(all: seq<Alias>, limit: nat, legacy: set<Alias>, count: nat, x: Alias)
    requires 0 < count <= |Merged(all, limit, legacy)|
    requires (x in Elements(all) || x in legacy) && x !in CutOff(all, limit, legacy)
    ensures !Lost(Merged(all, limit, legacy)[..count], x)
  {
    var m := Merged(all, limit, legacy);
    if x in all { TakenOrCut(all, limit, x); }
    assert x in Elements(m);
    MergedComesLater(m, count, x);
  }

  /** With an answer that ends in `last`, an alias that was cut off is lost exactly if it comes before. */
  lemma CutLostExactly(answer: seq<Alias>, x: Alias)
    requires answer != [] && x !in answer
    ensures Lost(answer, x) <==> Less(x, answer[|answer| - 1])
  {
    var last := answer[|answer| - 1];
    Total(x, last);
    if Less(x, last) { Asymmetric(x, last); }
    if Less(last, x) { Asymmetric(last, x); }
  }

  lemma CutIsLost(all: seq<Alias>, limit: nat, legacy: set<Alias>, count: nat, x: Alias)
    requires Increasing(all) && 0 < count <= |Merged(all, limit, legacy)| && x in CutOff(all, limit, legacy)
    ensures var answer := Merged(all, limit, legacy)[..count];
      x in Elements(all) && (Lost(answer, x) <==> Less(x, answer[|answer| - 1]))
  {
    var m := Merged(all, limit, legacy);
    CutIsNotMerged(all, limit, legacy, x);
    NotInPrefix(m, count, x);
    CutLostExactly(m[..count], x);
    assert x in all[limit..];
  }

  lemma NotInPrefix(m: seq<Alias>, count: nat, x: Alias)
    requires count <= |m| && x !in Elements(m)
    ensures x !in m[..count]
  {
    assert forall i :: 0 <= i < count ==> m[..count][i] in Elements(m);
  }

  lemma FirstDecides(all: seq<Alias>, legacy: set<Alias>, answer: seq<Alias>, cut: set<Alias>)
    requires answer != []
    requires forall x :: (x in Elements(all) || x in legacy) && x !in cut ==> !Lost(answer, x)
    requires forall x :: x in cut ==> x in Elements(all) && (Lost(answer, x) <==> Less(x, answer[|answer| - 1]))
    ensures Loses(all, legacy, answer) <==> cut != {} && Less(First(cut), answer[|answer| - 1])
  {
    if Loses(all, legacy, answer) {
      var x :| (x in Elements(all) || x in legacy) && Lost(answer, x);
      if x != First(cut) { Transitive(First(cut), x, answer[|answer| - 1]); }
    }
  }

  /** Only aliases that were cut off can be lost, and if any is, then the first of them. */
  lemma FirstCutIsLost(all: seq<Alias>, limit: nat, legacy: set<Alias>, count: nat)
    requires Increasing(all) && 0 < count <= |Merged(all, limit, legacy)|
    ensures var answer := Merged(all, limit, legacy)[..count]; var cut := CutOff(all, limit, legacy);
      Loses(all, legacy, answer) <==> cut != {} && Less(First(cut), answer[count - 1])
  {
    var m, cut := Merged(all, limit, legacy), CutOff(all, limit, legacy);
    var answer := m[..count];
    forall x | (x in Elements(all) || x in legacy) && x !in cut ensures !Lost(answer, x) {
      OthersAreNotLost(all, limit, legacy, count, x);
    }
    forall x | x in cut ensures x in Elements(all) && (Lost(answer, x) <==> Less(x, answer[|answer| - 1])) {
      CutIsLost(all, limit, legacy, count, x);
    }
    FirstDecides(all, legacy, answer, cut);
  }

  lemma CutIsNotMerged(all: seq<Alias>, limit: nat, legacy: set<Alias>, x: Alias)
    requires Increasing(all) && x in CutOff(all, limit, legacy)
    ensures x !in Elements(Merged(all, limit, legacy))
  {
    PageIsBeforeCut(all, limit, x);
    Irreflexive(x);
  }

  /** The answer goes past the first alias that was cut off exactly if there is room for it. */
  lemma AnswerPassesCut(all: seq<Alias>, limit: nat, legacy: set<Alias>, size: nat, count: nat)
    requires Increasing(all) && SafeAmount(Merged(all, limit, legacy), size, count) && count > 0
    requires CutOff(all, limit, legacy) != {}
    ensures Less(First(CutOff(all, limit, legacy)), Merged(all, limit, legacy)[count - 1]) <==> ReachesPastCut(all, limit, legacy, size)
  {
    var m, x := Merged(all, limit, legacy), First(CutOff(all, limit, legacy));
    CutIsNotMerged(all, limit, legacy, x);
    assert x !in m by { assert x !in Elements(m); }
    PageIsBeforeCut(all, limit, x);
    PastAndBefore(all, limit, legacy, x);
    var p := Place(m, x);
    if p == |m| {
      NonePast(m, x);
      Asymmetric(m[count - 1], x);
    } else {
      FirstPast(m, x, p);
      FirstUnique(After(legacy, Some(x)), m[p], First(After(legacy, Some(x))));
      UpToPast(m, x, p);
      ReturnedExactly(m, size, count, p);
      if count <= p { Asymmetric(m[count - 1], x); }
    }
  }

  /** Of what was merged, the page and the earlier legacy aliases are before the cut. */
  lemma PastAndBefore(all: seq<Alias>, limit: nat, legacy: set<Alias>, x: Alias)
    requires forall y :: y in Elements(Take(all, limit)) ==> Less(y, x)
    ensures After(Elements(Merged(all, limit, legacy)), Some(x)) == After(legacy, Some(x))
    ensures Before(Elements(Merged(all, limit, legacy)), x) == Elements(Take(all, limit)) + Before(legacy, x)
  {
    forall y | y in Elements(Take(all, limit)) ensures !Less(x, y) { Asymmetric(y, x); }
  }

  lemma EmptyAnswer(m: seq<Alias>, size: nat, count: nat)
    requires SafeAmount(m, size, count)
    ensures count == 0 <==> m == [] || DescriptorSize(m[0]) > size
  {
    if m != [] {
      assert m[..1][..0] == [];
      assert TotalSize(m[..1]) == DescriptorSize(m[0]);
      ReturnedExactly(m, size, count, 0);
    }
  }

  /**
   * A client that pages through the keys of a namespace loses some exactly if already the first alias
   * is too long for a response, or a legacy alias after the first alias that the page left out fits
   * the response together with all that comes before it.
   */
  lemma MergedListingLoses(all: seq<Alias>, limit: nat, legacy: set<Alias>, size: nat, count: nat)
    requires Increasing(all) && limit > 0 && SafeAmount(Merged(all, limit, legacy), size, count)
    ensures Loses(all, legacy, Merged(all, limit, legacy)[..count]) <==>
      FirstTooLarge(all, limit, legacy, size) || ReachesPastCut(all, limit, legacy, size)
  {
    var m := Merged(all, limit, legacy);
    EmptyAnswer(m, size, count);
    if m != [] {
      HeadIsFirst(m);
      FirstUnique(Elements(m), m[0], First(Elements(m)));
    }
    if count > 0 {
      FirstCutIsLost(all, limit, legacy, count);
      if CutOff(all, limit, legacy) != {} {
        AnswerPassesCut(all, limit, legacy, size, count);
      }
    } else {
      EmptyAnswerLoses(all, limit, legacy);
      if ReachesPastCut(all, limit, legacy, size) {
        NothingFitsAfterTooLarge(all, limit, legacy, size);
      }
    }
  }

  lemma EmptyAnswerLoses(all: seq<Alias>, limit: nat, legacy: set<Alias>)
    requires limit > 0
    ensures Loses(all, legacy, []) <==> Merged(all, limit, legacy) != []
  {
    var m := Merged(all, limit, legacy);
    if all != [] { assert Take(all, limit)[0] in Elements(m); }
    if m != [] {
      assert m[0] in Elements(m);
      assert m[0] in Elements(all) || m[0] in legacy;
      assert Lost([], m[0]);
    } else {
      assert Elements(m) == {};
    }
  }

  lemma {:induction false} AtLeastFirst(s: seq<Alias>)
    requires s != []
    ensures TotalSize(s) >= DescriptorSize(s[0])
  {
    if |s| > 1 {
      AtLeastFirst(s[..|s| - 1]);
    } else {
      assert s[..0] == [];
    }
  }

  /** If the first alias does not fit, then nothing fits together with it. */
  lemma NothingFitsAfterTooLarge(all: seq<Alias>, limit: nat, legacy: set<Alias>, size: nat)
    requires Increasing(all) && ReachesPastCut(all, limit, legacy, size)
    ensures Merged(all, limit, legacy) != [] && DescriptorSize(Merged(all, limit, legacy)[0]) <= size
  {
    var m, x := Merged(all, limit, legacy), First(CutOff(all, limit, legacy));
    CutIsNotMerged(all, limit, legacy, x);
    assert x !in m by { assert x !in Elements(m); }
    PageIsBeforeCut(all, limit, x);
    PastAndBefore(all, limit, legacy, x);
    var p := Place(m, x);
    if p == |m| {
      NonePast(m, x);
    }
    FirstPast(m, x, p);
    FirstUnique(After(legacy, Some(x)), m[p], First(After(legacy, Some(x))));
    UpToPast(m, x, p);
    AtLeastFirst(m[..p + 1]);
  }

  // ---------- Paging through the merged listing ----------

  /** Each alias of an answer is one of those sought, and they increase up to the last one. */
  lemma AnswerIsSought(stored: set<Alias>, legacy: set<Alias>, past: Option<Alias>, limit: nat, size: nat)
    ensures var answer := Answer(stored, legacy, past, limit, size);
      Increasing(answer) && Elements(answer) <= After(stored + legacy, past)
  {
    var all := Sorted(After(stored, past));
    var merged := Merged(all, limit, After(legacy, past));
    PrefixIncreases(merged, Fitting(merged, size));
    forall x | x in Answer(stored, legacy, past, limit, size) ensures x in After(stored + legacy, past) {
      assert x in Elements(merged);
      if x !in After(legacy, past) { assert x in Elements(all); }
    }
  }

  /** Past the last alias of an increasing sequence of those sought, there is less to seek. */
  lemma GoesOn(sought: set<Alias>, past: Option<Alias>, answer: seq<Alias>)
    requires answer != [] && Increasing(answer) && Elements(answer) <= After(sought, past)
    ensures After(sought, Some(answer[|answer| - 1])) < After(sought, past)
    ensures |After(sought, Some(answer[|answer| - 1]))| < |After(sought, past)|
  {
    var last := answer[|answer| - 1];
    assert last in Elements(answer);
    Irreflexive(last);
    forall x | x in After(sought, Some(last)) ensures x in After(sought, past) {
      if past.Some? { Transitive(past.value, last, x); }
    }
    SmallerSet(After(sought, Some(last)), After(sought, past));
  }

  /** All answers, each past the last alias of the one before, until one is empty. */
  ghost function AllAnswers(stored: set<Alias>, legacy: set<Alias>, past: Option<Alias>, limit: nat, size: nat): seq<Alias>
    decreases |After(stored + legacy, past)|
  {
    var answer := Answer(stored, legacy, past, limit, size);
    if answer == [] then [] else
      AnswerIsSought(stored, legacy, past, limit, size);
      GoesOn(stored + legacy, past, answer);
      answer + AllAnswers(stored, legacy, Some(answer[|answer| - 1]), limit, size)
  }

  /** A response to this request loses a key, told from what is stored. */
  ghost predicate LosesHere(stored: set<Alias>, legacy: set<Alias>, past: Option<Alias>, limit: nat, size: nat) {
    var all := Sorted(After(stored, past));
    FirstTooLarge(all, limit, After(legacy, past), size) || ReachesPastCut(all, limit, After(legacy, past), size)
  }

  /** None of the requests that the paging makes loses a key. */
  ghost predicate NeverLoses(stored: set<Alias>, legacy: set<Alias>, past: Option<Alias>, limit: nat, size: nat)
    decreases |After(stored + legacy, past)|
  {
    !LosesHere(stored, legacy, past, limit, size) &&
    var answer := Answer(stored, legacy, past, limit, size);
    answer == [] || (
      AnswerIsSought(stored, legacy, past, limit, size);
      GoesOn(stored + legacy, past, answer);
      NeverLoses(stored, legacy, Some(answer[|answer| - 1]), limit, size))
  }

  /** Of what is sought, the answer has all up to its last alias exactly if none is lost. */
  lemma AnswerThenRest(sought: set<Alias>, past: Option<Alias>, answer: seq<Alias>)
    requires answer != [] && Increasing(answer) && Elements(answer) <= After(sought, past)
    requires forall x :: x in After(sought, past) ==> !Lost(answer, x)
    ensures Sorted(After(sought, past)) == answer + Sorted(After(sought, Some(answer[|answer| - 1])))
  {
    var last := answer[|answer| - 1];
    var rest := Sorted(After(sought, Some(last)));
    GoesOn(sought, past, answer);
    forall i, j | 0 <= i < j < |answer + rest| ensures Less((answer + rest)[i], (answer + rest)[j]) {
      if i < |answer| <= j {
        assert rest[j - |answer|] in Elements(rest);
        if i < |answer| - 1 { Transitive(answer[i], last, rest[j - |answer|]); }
      }
    }
    Joined(answer, rest);
    SortedIs(answer + rest, After(sought, past));
  }

  lemma LosesHereExactly(stored: set<Alias>, legacy: set<Alias>, past: Option<Alias>, limit: nat, size: nat)
    requires limit > 0
    ensures LosesHere(stored, legacy, past, limit, size) <==>
      exists x :: x in After(stored + legacy, past) && Lost(Answer(stored, legacy, past, limit, size), x)
  {
    var all, later := Sorted(After(stored, past)), After(legacy, past);
    var merged := Merged(all, limit, later);
    MergedListingLoses(all, limit, later, size, Fitting(merged, size));
    assert forall x :: x in Elements(all) || x in later <==> x in After(stored + legacy, past);
  }

  lemma {:induction false} AnswersAreSought(stored: set<Alias>, legacy: set<Alias>, past: Option<Alias>, limit: nat, size: nat)
    ensures forall x :: x in AllAnswers(stored, legacy, past, limit, size) ==> x in After(stored + legacy, past)
    decreases |After(stored + legacy, past)|
  {
    var answer := Answer(stored, legacy, past, limit, size);
    if answer != [] {
      AnswerIsSought(stored, legacy, past, limit, size);
      GoesOn(stored + legacy, past, answer);
      AnswersAreSought(stored, legacy, Some(answer[|answer| - 1]), limit, size);
      assert forall x :: x in answer ==> x in Elements(answer);
    }
  }

  /** What a response loses is in no later response either. */
  lemma LostForGood(stored: set<Alias>, legacy: set<Alias>, past: Option<Alias>, limit: nat, size: nat, x: Alias)
    requires Lost(Answer(stored, legacy, past, limit, size), x)
    ensures x !in AllAnswers(stored, legacy, past, limit, size)
  {
    var answer := Answer(stored, legacy, past, limit, size);
    if answer != [] {
      AnswersAreSought(stored, legacy, Some(answer[|answer| - 1]), limit, size);
    }
  }

  /**
   * A client that pages through the merged listing is given all aliases, each once and in order,
   * exactly if no response on the way loses one.
   */
  lemma {:induction false} MergedPagingComplete(stored: set<Alias>, legacy: set<Alias>, past: Option<Alias>, limit: nat, size: nat)
    requires limit > 0
    ensures AllAnswers(stored, legacy, past, limit, size) == Sorted(After(stored + legacy, past)) <==>
      NeverLoses(stored, legacy, past, limit, size)
    decreases |After(stored + legacy, past)|
  {
    var sought, answer := After(stored + legacy, past), Answer(stored, legacy, past, limit, size);
    LosesHereExactly(stored, legacy, past, limit, size);
    if LosesHere(stored, legacy, past, limit, size) {
      var x :| x in sought && Lost(answer, x);
      LostForGood(stored, legacy, past, limit, size, x);
      assert x in Elements(Sorted(sought));
    } else if answer == [] {
      NoneSought(sought);
    } else {
      AnswerIsSought(stored, legacy, past, limit, size);
      GoesOn(stored + legacy, past, answer);
      AnswerThenRest(stored + legacy, past, answer);
      MergedPagingComplete(stored, legacy, Some(answer[|answer| - 1]), limit, size);
      SamePrefix(answer, AllAnswers(stored, legacy, Some(answer[|answer| - 1]), limit, size),
                 Sorted(After(stored + legacy, Some(answer[|answer| - 1]))));
    }
  }

  lemma NoneSought(sought: set<Alias>)
    requires forall x :: x in sought ==> !Lost([], x)
    ensures Sorted(sought) == []
  {
    assert forall x :: x in sought ==> Lost([], x);
    assert sought == {};
  }

  lemma SamePrefix(a: seq<Alias>, b: seq<Alias>, c: seq<Alias>)
    ensures a + b == a + c <==> b == c
  {
    assert (a + b)[|a|..] == b && (a + c)[|a|..] == c;
  }

  // ---------- It happens ----------

  /** Aliases of 19 characters, in increasing order. */
  function Numbered(i: nat): (a: Alias)
    ensures |a| == 19
  {
    [i / 100, i % 100] + seq(17, _ => 65)
  }

  const LATE: Alias := [127] + seq(18, _ => 65)

  function ManyKeys(): (r: seq<Alias>)
    ensures |r| == PAGE_LIMIT + 1 && forall i :: 0 <= i < |r| ==> r[i] == Numbered(i)
  {
    seq(PAGE_LIMIT + 1, i requires 0 <= i <= PAGE_LIMIT => Numbered(i))
  }

  lemma NumberedIncrease(i: nat, j: nat)
    requires i < j
    ensures Less(Numbered(i), Numbered(j))
  {
    var a, b := Numbered(i), Numbered(j);
    if a[0] == b[0] {
      assert a[1..][0] < b[1..][0];
    }
  }

  lemma {:induction false} EqualSizes(s: seq<Alias>, n: nat)
    requires forall i :: 0 <= i < |s| ==> |s[i]| == n
    ensures TotalSize(s) == |s| * (16 + n)
  {
    if s != [] {
      EqualSizes(s[..|s| - 1], n);
      assert |s| * (16 + n) == (|s| - 1) * (16 + n) + (16 + n);
    }
  }

  lemma ManyKeysOrdered()
    ensures Increasing(ManyKeys()) && forall i :: 0 <= i <= PAGE_LIMIT ==> Less(ManyKeys()[i], LATE)
  {
    var all := ManyKeys();
    forall i, j | 0 <= i < j < |all| ensures Less(all[i], all[j]) { NumberedIncrease(i, j); }
    forall i | 0 <= i <= PAGE_LIMIT ensures Less(all[i], LATE) { assert all[i][0] <= 100; }
  }

  lemma PageThenLate(page: seq<Alias>, z: Alias)
    requires Increasing(page) && forall i :: 0 <= i < |page| ==> Less(page[i], z)
    ensures Sorted(Elements(page) + {} + {z}) == page + [z]
  {
    AppendedIncreases(page, z);
    Joined(page, [z]);
    SortedIs(page + [z], Elements(page) + {} + {z});
  }

  lemma LateAlone(hidden: Alias, z: Alias)
    requires Less(hidden, z)
    ensures After({z}, Some(hidden)) == {z} && Before({z}, hidden) == {} && First({z}) == z && First({hidden}) == hidden && hidden != z
  {
    Asymmetric(hidden, z);
    Irreflexive(z);
  }

  /** A legacy alias after one key more than fits a page. */
  lemma HidesLast(all: seq<Alias>, limit: nat, z: Alias, size: nat)
    requires Increasing(all) && |all| == limit + 1 && (forall i :: 0 <= i < |all| ==> Less(all[i], z))
    requires TotalSize(all[..limit] + [z]) <= size
    ensures ReachesPastCut(all, limit, {z}, size)
  {
    var hidden := all[limit];
    assert all[limit..] == [hidden];
    LateAlone(hidden, z);
    assert CutOff(all, limit, {z}) == {hidden};
    PrefixIncreases(all, limit);
    PageThenLate(all[..limit], z);
    assert Take(all, limit) == all[..limit];
  }

  lemma ManyKeysFit()
    ensures TotalSize(ManyKeys()[..PAGE_LIMIT] + [LATE]) == 350035
  {
    var fits := ManyKeys()[..PAGE_LIMIT] + [LATE];
    assert forall i :: 0 <= i < |fits| ==> |fits[i]| == 19;
    EqualSizes(fits, 19);
  }

  lemma LateAliasHides(all: seq<Alias>, limit: nat, z: Alias, size: nat, count: nat)
    requires Increasing(all) && limit > 0 && |all| == limit + 1 && (forall i :: 0 <= i < |all| ==> Less(all[i], z))
    requires TotalSize(all[..limit] + [z]) <= size && SafeAmount(Merged(all, limit, {z}), size, count)
    ensures Loses(all, {z}, Merged(all, limit, {z})[..count])
  {
    HidesLast(all, limit, z, size);
    MergedListingLoses(all, limit, {z}, size, count);
  }

  /** 10001 keys with aliases of 19 characters and a legacy key after them: one key is never listed. */
  lemma LegacyAliasHidesKeys(count: nat)
    requires SafeAmount(Merged(ManyKeys(), PAGE_LIMIT, {LATE}), RESPONSE_SIZE_LIMIT, count)
    ensures Loses(ManyKeys(), {LATE}, Merged(ManyKeys(), PAGE_LIMIT, {LATE})[..count])
  {
    ManyKeysOrdered();
    ManyKeysFit();
    LateAliasHides(ManyKeys(), PAGE_LIMIT, LATE, RESPONSE_SIZE_LIMIT, count);
  }

  /** So the listing of that namespace is never complete, however often the client asks on. */
  lemma HiddenKeyIsNeverListed()
    ensures AllAnswers(Elements(ManyKeys()), {LATE}, None, PAGE_LIMIT, RESPONSE_SIZE_LIMIT) != Sorted(Elements(ManyKeys()) + {LATE})
  {
    var stored, size := Elements(ManyKeys()), RESPONSE_SIZE_LIMIT;
    ManyKeysOrdered();
    SortedUnique(ManyKeys());
    var merged := Merged(ManyKeys(), PAGE_LIMIT, {LATE});
    LegacyAliasHidesKeys(Fitting(merged, size));
    MergedListingLoses(ManyKeys(), PAGE_LIMIT, {LATE}, size, Fitting(merged, size));
    assert LosesHere(stored, {LATE}, None, PAGE_LIMIT, size);
    MergedPagingComplete(stored, {LATE}, None, PAGE_LIMIT, size);
  }
}
