/**
 * Polarity reconciliation for term-derived category labels
 * (data_adapter/data_object.py, `generate_acd_and_sc_data`, lines 639-663): the aspect
 * terms of one sentence are grouped by category, each category collecting the set of
 * polarities its terms carry (its votes), and every category yields one
 * `(category, polarity)` pair.
 */
module Reconciliation {
  import opened Wrappers
  import opened Records

  const Positive: Option<string> := Some("positive")
  const Negative: Option<string> := Some("negative")
  const Neutral: Option<string> := Some("neutral")
  const Conflict: Option<string> := Some("conflict")

  /** A category and the polarity reconciled for it. */
  type LabelPair = (Option<string>, Option<string>)

  // ---------------------------------------------------------------------------
  // The bucket rule
  // ---------------------------------------------------------------------------

  /** A one-element set is the singleton of any of its members. */
  lemma {:induction false} SingletonOf(s: set<Option<string>>, x: Option<string>)
    requires |s| == 1 && x in s
    ensures s == {x}
  {
    var rest := s - {x};
    assert s == rest + {x};
    assert |rest| == 0;
  }

  lemma {:induction false} SingletonMembersEqual(s: set<Option<string>>)
    requires |s| == 1
    ensures forall x, y :: x in s && y in s ==> x == y
  {
    forall x, y | x in s && y in s ensures x == y {
      SingletonOf(s, x);
    }
  }

  /** A set whose members all equal `v` has at most one member. */
  lemma {:induction false} AtMostOne(s: set<Option<string>>, v: Option<string>)
    requires forall w :: w in s ==> w == v
    ensures |s| <= 1
  {
    if v in s {
      assert s == {v};
    } else {
      assert s == {};
    }
  }

  /** The element of a one-element set (`polarities.pop()` on it). */
  function Only(s: set<Option<string>>): (x: Option<string>)
    requires |s| == 1
    ensures s == {x}
  {
    SingletonMembersEqual(s);
    var x :| x in s;
    x
  }

  /** The polarity a category bucket reconciles to. A bucket always holds at least one
      vote, but the rule is total: an empty set falls through to `negative` as the
      source's `else` branch would. */
  function Reconcile(votes: set<Option<string>>): (r: Option<string>)
    ensures |votes| == 1 ==> votes == {r}
    ensures |votes| != 1 ==> r == Conflict || r == Positive || r == Negative
  {
    if |votes| == 1 then Only(votes)
    else if (Positive in votes && Negative in votes) || Conflict in votes then Conflict
    else if Positive in votes && Neutral in votes then Positive
    else Negative
  }

  /** A unanimous bucket keeps its polarity verbatim, whatever it is (even None). */
  lemma {:induction false} ReconcileUnanimous(p: Option<string>)
    ensures Reconcile({p}) == p
  {
  }

  /** Opposite votes, or a `conflict` vote, make the bucket a conflict. */
  lemma {:induction false} ReconcileConflict(votes: set<Option<string>>)
    requires |votes| >= 2
    requires (Positive in votes && Negative in votes) || Conflict in votes
    ensures Reconcile(votes) == Conflict
  {
  }

  /** Without opposite votes and without `conflict`, a bucket of two or more votes yields
      `positive` when it holds both `positive` and `neutral`, and `negative` otherwise,
      whatever other strings the `polarity` attributes carried. */
  lemma {:induction false} ReconcileWithoutConflict(votes: set<Option<string>>)
    requires |votes| >= 2
    requires !((Positive in votes && Negative in votes) || Conflict in votes)
    ensures Positive in votes && Neutral in votes ==> Reconcile(votes) == Positive
    ensures !(Positive in votes && Neutral in votes) ==> Reconcile(votes) == Negative
  {
  }

  /** Votes outside the four standard labels fall through to the same two branches. */
  lemma {:induction false} ReconcileNonStandardVotes()
    ensures Reconcile({Positive, Neutral, Some("mixed")}) == Positive
    ensures Reconcile({Neutral, Some("mixed")}) == Negative
    ensures Reconcile({Positive, Some("mixed")}) == Negative
  {
    assert |{Positive, Neutral, Some("mixed")}| == 3;
    assert |{Neutral, Some("mixed")}| == 2;
    assert |{Positive, Some("mixed")}| == 2;
  }

  /** On the four standard labels, a bucket without opposite votes reconciles to one of
      its own votes, and a mixed bucket never reconciles to `neutral`. */
  lemma {:induction false} ReconcileChoosesAVote(votes: set<Option<string>>)
    requires votes != {}
    requires forall v :: v in votes ==> v == Positive || v == Negative || v == Neutral || v == Conflict
    requires !(Positive in votes && Negative in votes)
    ensures Reconcile(votes) in votes
    ensures |votes| >= 2 ==> Reconcile(votes) != Neutral
  {
    if |votes| >= 2 && Conflict !in votes && !(Positive in votes && Neutral in votes) {
      if Negative !in votes {
        var v :| v in votes;
        assert v == Neutral || v == Positive;
        AtMostOne(votes, v);
      }
    }
  }

  /** The cases the rule was written for; only the set of votes matters, so listing the
      votes in another order gives the same result. */
  lemma {:induction false} ReconcileScenarios()
    ensures Reconcile({Positive, Negative}) == Conflict
    ensures Reconcile({Negative, Positive}) == Conflict
    ensures Reconcile({Positive, Neutral}) == Positive
    ensures Reconcile({Negative, Neutral}) == Negative
    ensures Reconcile({Neutral, Conflict}) == Conflict
    ensures Reconcile({Positive}) == Positive
  {
    assert |{Positive, Negative}| == 2;
    assert |{Positive, Neutral}| == 2;
    assert |{Negative, Neutral}| == 2;
    assert |{Neutral, Conflict}| == 2;
  }

  // ---------------------------------------------------------------------------
  // Buckets of one sentence
  // ---------------------------------------------------------------------------

  /** The votes of category `c`: the polarities of the terms tagged `c`. */
  function Votes(ts: seq<AspectTerm>, c: Option<string>): (v: set<Option<string>>)
    decreases |ts|
  {
    if ts == [] then {}
    else
      var last := ts[|ts| - 1];
      Votes(ts[..|ts| - 1], c) + (if last.category == c then {last.polarity} else {})
  }

  lemma {:induction false} VotesMembers(ts: seq<AspectTerm>, c: Option<string>, p: Option<string>)
    ensures p in Votes(ts, c) <==> exists i :: 0 <= i < |ts| && ts[i].category == c && ts[i].polarity == p
    decreases |ts|
  {
    if ts != [] {
      var init := ts[..|ts| - 1];
      VotesMembers(init, c, p);
      if exists i :: 0 <= i < |init| && init[i].category == c && init[i].polarity == p {
        var i :| 0 <= i < |init| && init[i].category == c && init[i].polarity == p;
        assert ts[i] == init[i];
      }
      if exists i :: 0 <= i < |ts| && ts[i].category == c && ts[i].polarity == p {
        var i :| 0 <= i < |ts| && ts[i].category == c && ts[i].polarity == p;
        if i < |init| {
          assert init[i] == ts[i];
        }
      }
    }
  }

  /** The votes depend on the terms, not on their order. */
  lemma {:induction false} VotesIgnoreOrder(ts: seq<AspectTerm>, us: seq<AspectTerm>, c: Option<string>)
    requires multiset(ts) == multiset(us)
    ensures Votes(ts, c) == Votes(us, c)
  {
    forall p ensures p in Votes(ts, c) <==> p in Votes(us, c) {
      VotesMembers(ts, c, p);
      VotesMembers(us, c, p);
      if exists i :: 0 <= i < |ts| && ts[i].category == c && ts[i].polarity == p {
        var i :| 0 <= i < |ts| && ts[i].category == c && ts[i].polarity == p;
        assert ts[i] in multiset(us);
        var j :| 0 <= j < |us| && us[j] == ts[i];
      }
      if exists j :: 0 <= j < |us| && us[j].category == c && us[j].polarity == p {
        var j :| 0 <= j < |us| && us[j].category == c && us[j].polarity == p;
        assert us[j] in multiset(ts);
        var i :| 0 <= i < |ts| && ts[i] == us[j];
      }
    }
  }

  /** The categories of the terms, each once, in the order the dictionary
      `aspect_categories_temp` first receives them. */
  function Categories(ts: seq<AspectTerm>): seq<Option<string>>
    decreases |ts|
  {
    if ts == [] then []
    else
      var cs := Categories(ts[..|ts| - 1]);
      var c := ts[|ts| - 1].category;
      if c in cs then cs else cs + [c]
  }

  lemma {:induction false} CategoriesSnoc(ts: seq<AspectTerm>, t: AspectTerm)
    ensures Categories(ts + [t]) == if t.category in Categories(ts) then Categories(ts) else Categories(ts) + [t.category]
  {
    assert (ts + [t])[..|ts|] == ts;
  }

  /** Every term's category is listed, and only those. */
  lemma {:induction false} CategoriesMembers(ts: seq<AspectTerm>)
    ensures forall i :: 0 <= i < |ts| ==> ts[i].category in Categories(ts)
    ensures forall c :: c in Categories(ts) ==> exists i :: 0 <= i < |ts| && ts[i].category == c
    decreases |ts|
  {
    if ts != [] {
      var init := ts[..|ts| - 1];
      CategoriesMembers(init);
      assert forall i :: 0 <= i < |init| ==> init[i] == ts[i];
    }
  }

  /** No category is listed twice. */
  lemma {:induction false} CategoriesDistinct(ts: seq<AspectTerm>)
    ensures forall j, k :: 0 <= j < k < |Categories(ts)| ==> Categories(ts)[j] != Categories(ts)[k]
    decreases |ts|
  {
    if ts != [] {
      CategoriesDistinct(ts[..|ts| - 1]);
    }
  }

  /** `c` is the category of some term before index `i`. */
  predicate AppearsBefore(ts: seq<AspectTerm>, c: Option<string>, i: int) {
    exists i' :: 0 <= i' < i && i' < |ts| && ts[i'].category == c
  }

  /** Earlier categories are those whose first term comes first: a category listed
      before another one occurs before every term of that other one. */
  lemma {:induction false} CategoriesFirstAppearance(ts: seq<AspectTerm>)
    ensures forall j, k, i :: 0 <= j < k < |Categories(ts)| && 0 <= i < |ts| && ts[i].category == Categories(ts)[k]
              ==> AppearsBefore(ts, Categories(ts)[j], i)
  {
    forall j, k, i | 0 <= j < k < |Categories(ts)| && 0 <= i < |ts| && ts[i].category == Categories(ts)[k]
      ensures AppearsBefore(ts, Categories(ts)[j], i)
    {
      FirstAppearanceAt(ts, j, k, i);
    }
  }

  /** One instance of the order: the `j`-th category occurs before term `i` of the
      `k`-th one. */
  lemma {:induction false} FirstAppearanceAt(ts: seq<AspectTerm>, j: nat, k: nat, i: nat)
    requires j < k < |Categories(ts)| && i < |ts| && ts[i].category == Categories(ts)[k]
    ensures AppearsBefore(ts, Categories(ts)[j], i)
    decreases |ts|
  {
    var n := |ts| - 1;
    var init := ts[..n];
    var cs := Categories(init);
    var all := Categories(ts);
    assert all == if ts[n].category in cs then cs else cs + [ts[n].category];
    assert all[j] == cs[j];
    CategoriesMembers(init);
    if i == n {
      assert cs[j] in cs;
      var i0 :| 0 <= i0 < |init| && init[i0].category == cs[j];
      assert ts[i0] == init[i0];
    } else {
      assert init[i] == ts[i];
      assert init[i].category in cs;
      assert k < |cs|;
      assert all[k] == cs[k];
      FirstAppearanceAt(init, j, k, i);
      var i1 :| 0 <= i1 < i && i1 < |init| && init[i1].category == cs[j];
      assert ts[i1] == init[i1];
    }
  }

  /** Every category's bucket holds at least one vote. */
  lemma {:induction false} CategoryHasVotes(ts: seq<AspectTerm>, c: Option<string>)
    requires c in Categories(ts)
    ensures Votes(ts, c) != {}
  {
    CategoriesMembers(ts);
    var i :| 0 <= i < |ts| && ts[i].category == c;
    VotesMembers(ts, c, ts[i].polarity);
  }

  /** The reconciled label of one sentence: one pair per distinct category, in order of
      first appearance, each with its bucket's polarity. */
  function ReconciledLabel(ts: seq<AspectTerm>): (pairs: seq<LabelPair>)
    ensures |pairs| == |Categories(ts)|
    ensures forall j :: 0 <= j < |pairs| ==> pairs[j].0 == Categories(ts)[j]
  {
    PairsOf(ts, Categories(ts))
  }

  /** The pairs of the buckets of `cs`, in the order of `cs`. */
  function PairsOf(ts: seq<AspectTerm>, cs: seq<Option<string>>): (pairs: seq<LabelPair>)
    ensures |pairs| == |cs|
    ensures forall j :: 0 <= j < |pairs| ==> pairs[j] == (cs[j], Reconcile(Votes(ts, cs[j])))
  {
    if cs == [] then []
    else
      var c := cs[|cs| - 1];
      PairsOf(ts, cs[..|cs| - 1]) + [(c, Reconcile(Votes(ts, c)))]
  }

  /** The label names no category twice. */
  lemma {:induction false} ReconciledLabelDistinct(ts: seq<AspectTerm>)
    ensures forall j, k :: 0 <= j < k < |ReconciledLabel(ts)| ==> ReconciledLabel(ts)[j].0 != ReconciledLabel(ts)[k].0
  {
    CategoriesDistinct(ts);
  }

  /** The label is empty exactly when the sentence has no terms. */
  lemma {:induction false} ReconciledLabelEmpty(ts: seq<AspectTerm>)
    ensures ReconciledLabel(ts) == [] <==> ts == []
  {
    CategoriesMembers(ts);
    if ts != [] {
      assert ts[0].category in Categories(ts);
    }
  }

  /** Every term's category has a pair in the label. */
  lemma {:induction false} ReconciledLabelCoversTerms(ts: seq<AspectTerm>)
    ensures forall i :: 0 <= i < |ts| ==> exists j :: 0 <= j < |ReconciledLabel(ts)| && ReconciledLabel(ts)[j].0 == ts[i].category
  {
    var cs := Categories(ts);
    var pairs := ReconciledLabel(ts);
    CategoriesMembers(ts);
    forall i | 0 <= i < |ts| ensures exists j :: 0 <= j < |pairs| && pairs[j].0 == ts[i].category {
      var j :| 0 <= j < |cs| && cs[j] == ts[i].category;
      assert pairs[j].0 == cs[j];
    }
  }

  /** Every pair's category is the category of some term. */
  lemma {:induction false} ReconciledLabelOnlyTermCategories(ts: seq<AspectTerm>)
    ensures forall j :: 0 <= j < |ReconciledLabel(ts)| ==> exists i :: 0 <= i < |ts| && ts[i].category == ReconciledLabel(ts)[j].0
  {
    var cs := Categories(ts);
    var pairs := ReconciledLabel(ts);
    CategoriesMembers(ts);
    forall j | 0 <= j < |pairs| ensures exists i :: 0 <= i < |ts| && ts[i].category == pairs[j].0 {
      assert cs[j] in cs;
    }
  }

  /** The label lists categories in order of first appearance: a category listed before
      another one occurs before every term of that other one. */
  lemma {:induction false} ReconciledLabelOrder(ts: seq<AspectTerm>)
    ensures forall j, k, i :: 0 <= j < k < |ReconciledLabel(ts)| && 0 <= i < |ts| && ts[i].category == ReconciledLabel(ts)[k].0
              ==> AppearsBefore(ts, ReconciledLabel(ts)[j].0, i)
  {
    CategoriesFirstAppearance(ts);
  }

  /** Each pair carries the reconciliation of its category's votes; an unanimous category
      keeps the polarity of its terms. */
  lemma {:induction false} ReconciledLabelPolarity(ts: seq<AspectTerm>, j: nat)
    requires j < |ReconciledLabel(ts)|
    ensures ReconciledLabel(ts)[j].1 == Reconcile(Votes(ts, ReconciledLabel(ts)[j].0))
    ensures forall i :: 0 <= i < |ts| && ts[i].category == ReconciledLabel(ts)[j].0
              && (forall i' :: 0 <= i' < |ts| && ts[i'].category == ts[i].category ==> ts[i'].polarity == ts[i].polarity)
              ==> ReconciledLabel(ts)[j].1 == ts[i].polarity
  {
    var c := ReconciledLabel(ts)[j].0;
    forall i | 0 <= i < |ts| && ts[i].category == c
              && (forall i' :: 0 <= i' < |ts| && ts[i'].category == ts[i].category ==> ts[i'].polarity == ts[i].polarity)
      ensures ReconciledLabel(ts)[j].1 == ts[i].polarity
    {
      forall p ensures p in Votes(ts, c) <==> p == ts[i].polarity {
        VotesMembers(ts, c, p);
      }
      assert Votes(ts, c) == {ts[i].polarity};
    }
  }

  /** Reordering the terms of a sentence may reorder its label, but never changes the
      polarity reconciled for a category. */
  lemma {:induction false} ReconciledPolarityIgnoresOrder(ts: seq<AspectTerm>, us: seq<AspectTerm>, c: Option<string>)
    requires multiset(ts) == multiset(us)
    ensures Reconcile(Votes(ts, c)) == Reconcile(Votes(us, c))
  {
    VotesIgnoreOrder(ts, us, c);
  }

  // ---------------------------------------------------------------------------
  // The loops of lines 639-663
  // ---------------------------------------------------------------------------

  /** Python's `polarity` after `for aspect_term in sentence.aspect_terms`: the last
      term's polarity. */
  function LastPolarity(ts: seq<AspectTerm>): Option<string> {
    if ts == [] then None else ts[|ts| - 1].polarity
  }

  /** What the bucket of `c` adds to `distinct_polarities`: the reconciled polarity of a
      mixed bucket, and for an unanimous bucket the loop-leftover `polarity`, which is the
      sentence's last term's polarity rather than the bucket's. */
  function Contribution(ts: seq<AspectTerm>, c: Option<string>): Option<string> {
    if |Votes(ts, c)| == 1 then LastPolarity(ts) else Reconcile(Votes(ts, c))
  }

  /** What one sentence adds to `distinct_polarities`. */
  function AddedPolarities(ts: seq<AspectTerm>): set<Option<string>> {
    ContributionSet(ts, Categories(ts))
  }

  /** The leftover variable shows: two terms of different categories make two unanimous
      buckets, and the label keeps both polarities, but only the last term's polarity is
      added to the vocabulary (so a sentence "pizza positive, staff negative" adds only
      `negative`). */
  lemma {:induction false} AddedPolaritiesUseLastTerm(a: AspectTerm, b: AspectTerm)
    requires a.category != b.category
    ensures ReconciledLabel([a, b]) == [(a.category, a.polarity), (b.category, b.polarity)]
    ensures AddedPolarities([a, b]) == {b.polarity}
  {
    var ts := [a, b];
    TwoCategoriesVotes(a, b);
    ReconcileUnanimous(a.polarity);
    ReconcileUnanimous(b.polarity);
    PairsOfTwo(ts, a.category, b.category);
    ContributionSetTwo(ts, a.category, b.category);
  }

  lemma {:induction false} PairsOfTwo(ts: seq<AspectTerm>, c: Option<string>, d: Option<string>)
    ensures PairsOf(ts, [c, d]) == [(c, Reconcile(Votes(ts, c))), (d, Reconcile(Votes(ts, d)))]
  {
    var pairs := PairsOf(ts, [c, d]);
    assert |pairs| == 2 && pairs[0] == (c, Reconcile(Votes(ts, c))) && pairs[1] == (d, Reconcile(Votes(ts, d)));
  }

  lemma {:induction false} ContributionSetTwo(ts: seq<AspectTerm>, c: Option<string>, d: Option<string>)
    ensures ContributionSet(ts, [c, d]) == {Contribution(ts, c), Contribution(ts, d)}
  {
    assert [c, d][..1] == [c];
    assert [c][..0] == [];
    assert ContributionSet(ts, [c]) == {Contribution(ts, c)};
    assert ContributionSet(ts, [c, d]) == ContributionSet(ts, [c]) + {Contribution(ts, d)};
  }

  /** Two terms of different categories: two buckets of one vote each. */
  lemma {:induction false} TwoCategoriesVotes(a: AspectTerm, b: AspectTerm)
    requires a.category != b.category
    ensures Categories([a, b]) == [a.category, b.category]
    ensures Votes([a, b], a.category) == {a.polarity}
    ensures Votes([a, b], b.category) == {b.polarity}
  {
    var ts := [a, b];
    assert ts[..1] == [a];
    assert [a][..0] == [];
    assert Categories([a]) == [a.category];
    assert Votes([a], a.category) == {a.polarity};
    assert Votes([a], b.category) == {};
  }

  lemma {:induction false} VotesSnoc(ts: seq<AspectTerm>, t: AspectTerm, c: Option<string>)
    ensures Votes(ts + [t], c) == Votes(ts, c) + (if t.category == c then {t.polarity} else {})
  {
    assert (ts + [t])[..|ts|] == ts;
  }

  /** The members of a list of categories. */
  function CategorySet(cs: seq<Option<string>>): (r: set<Option<string>>)
    ensures forall c :: c in r <==> c in cs
  {
    if cs == [] then {} else CategorySet(cs[..|cs| - 1]) + {cs[|cs| - 1]}
  }

  /** The contributions of the buckets of `cs`. */
  function ContributionSet(ts: seq<AspectTerm>, cs: seq<Option<string>>): set<Option<string>> {
    if cs == [] then {} else ContributionSet(ts, cs[..|cs| - 1]) + {Contribution(ts, cs[|cs| - 1])}
  }

  lemma {:induction false} SetsSnoc(ts: seq<AspectTerm>, cs: seq<Option<string>>, c: Option<string>)
    ensures PairsOf(ts, cs + [c]) == PairsOf(ts, cs) + [(c, Reconcile(Votes(ts, c)))]
    ensures CategorySet(cs + [c]) == CategorySet(cs) + {c}
    ensures ContributionSet(ts, cs + [c]) == ContributionSet(ts, cs) + {Contribution(ts, c)}
  {
    assert (cs + [c])[..|cs|] == cs;
  }

  /** The first loop: `aspect_categories_temp`, a dictionary of vote sets filled in term
      order, with its keys in insertion order, and the leftover `polarity`. */
  method GroupByCategory(ts: seq<AspectTerm>)
    returns (buckets: map<Option<string>, set<Option<string>>>, order: seq<Option<string>>, polarity: Option<string>)
    ensures order == Categories(ts)
    ensures forall c :: c in buckets <==> c in order
    ensures forall c :: c in buckets ==> buckets[c] == Votes(ts, c)
    ensures polarity == LastPolarity(ts)
  {
    buckets := map[];
    order := [];
    polarity := None;
    for i := 0 to |ts|
      invariant order == Categories(ts[..i])
      invariant forall c :: c in buckets <==> c in order
      invariant forall c :: c in buckets ==> buckets[c] == Votes(ts[..i], c)
      invariant forall c :: c !in buckets ==> Votes(ts[..i], c) == {}
      invariant polarity == LastPolarity(ts[..i])
    {
      var category := ts[i].category;
      polarity := ts[i].polarity;
      ghost var before := buckets;
      ghost var beforeOrder := order;
      // a new category gets an empty bucket first; the polarity is then added to it
      var votes := if category in buckets then buckets[category] else {};
      if category !in buckets {
        order := order + [category];
      }
      buckets := buckets[category := votes + {polarity}];
      BucketsStep(ts, i, before, beforeOrder, buckets, order);
    }
    assert ts[..|ts|] == ts;
  }

  /** Adding term `i`'s vote to its category's bucket, and its category to the order when
      new, keeps the buckets equal to the votes of the terms read so far. */
  lemma {:induction false} BucketsStep(ts: seq<AspectTerm>, i: nat, before: map<Option<string>, set<Option<string>>>,
                    beforeOrder: seq<Option<string>>, after: map<Option<string>, set<Option<string>>>,
                    afterOrder: seq<Option<string>>)
    requires i < |ts|
    requires beforeOrder == Categories(ts[..i])
    requires forall c :: c in before <==> c in beforeOrder
    requires forall c :: c in before ==> before[c] == Votes(ts[..i], c)
    requires forall c :: c !in before ==> Votes(ts[..i], c) == {}
    requires after == before[ts[i].category := (if ts[i].category in before then before[ts[i].category] else {}) + {ts[i].polarity}]
    requires afterOrder == if ts[i].category in before then beforeOrder else beforeOrder + [ts[i].category]
    ensures afterOrder == Categories(ts[..i + 1])
    ensures forall c :: c in after <==> c in afterOrder
    ensures forall c :: c in after ==> after[c] == Votes(ts[..i + 1], c)
    ensures forall c :: c !in after ==> Votes(ts[..i + 1], c) == {}
  {
    PrefixSnoc(ts, i);
    CategoriesSnoc(ts[..i], ts[i]);
    forall c ensures Votes(ts[..i + 1], c) == Votes(ts[..i], c) + (if ts[i].category == c then {ts[i].polarity} else {}) {
      VotesSnoc(ts[..i], ts[i], c);
    }
  }

  /** The branches of lines 647-663 for one bucket: `pop()` of an unanimous bucket,
      otherwise the rule. */
  method ReconcileBucket(votes: set<Option<string>>) returns (chosen: Option<string>)
    ensures chosen == Reconcile(votes)
  {
    if |votes| == 1 {
      chosen :| chosen in votes;
      SingletonOf(votes, chosen);
    } else if (Positive in votes && Negative in votes) || Conflict in votes {
      chosen := Conflict;
    } else if Positive in votes && Neutral in votes {
      chosen := Positive;
    } else {
      chosen := Negative;
    }
  }

  /** The per-sentence part of `generate_acd_and_sc_data`: groups the votes, then walks
      the buckets in insertion order, popping the only vote of an unanimous bucket and
      applying the rule to the others. Returns the label and what the sentence adds to
      the two vocabularies. */
  method ReconcileSentence(ts: seq<AspectTerm>)
    returns (pairs: seq<LabelPair>, categories: set<Option<string>>, polarities: set<Option<string>>)
    ensures pairs == ReconciledLabel(ts)
    ensures categories == CategorySet(Categories(ts))
    ensures polarities == AddedPolarities(ts)
  {
    var buckets, order, polarity := GroupByCategory(ts);
    pairs := [];
    categories := {};
    polarities := {};
    for j := 0 to |order|
      invariant pairs == PairsOf(ts, order[..j])
      invariant categories == CategorySet(order[..j])
      invariant polarities == ContributionSet(ts, order[..j])
    {
      PrefixSnoc(order, j);
      SetsSnoc(ts, order[..j], order[j]);
      var category := order[j];
      assert category in order;
      var votes := buckets[category];
      assert votes == Votes(ts, category);
      var chosen := ReconcileBucket(votes);
      var added := if |votes| == 1 then polarity else chosen;
      pairs := pairs + [(category, chosen)];
      categories := categories + {category};
      polarities := polarities + {added};
    }
    assert order[..|order|] == order;
  }
}
