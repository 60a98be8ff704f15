/** The train/holdout split and the dataset checksum (app/classification/training.py). */
module DatasetSplit {
  import opened Rounding
  import opened Sequences
  import opened Sorting

  /** `tag` is the label of the example. */
  datatype Example = Example(text: string, tag: string, normalizedText: string, textHash: string)

  datatype Split = Split(train: seq<Example>, holdout: seq<Example>)

  const CLASSIFICATION_LABELS: seq<string> :=
    ["order", "vacancy", "service_ad", "resume", "partnership", "spam", "discussion", "irrelevant"]

  function SortKey(e: Example): seq<string> {
    [e.tag, e.textHash, e.text]
  }

  // ---------- which groups are held out ----------

  /** How many of `n` groups are held out: at least one, but never all. */
  function HoldoutCount(n: nat, ratio: real): (count: nat)
    ensures n >= 2 ==> 1 <= count < n
    ensures n <= 1 ==> count == 0
  {
    var wanted := Round(n as real * ratio);
    var count := if wanted < 1 then 1 else wanted;
    if count >= n then (if n == 0 then 0 else n - 1) else count
  }

  /** As near to the wanted share as whole groups and the bounds allow; of two equally near counts the even one. */
  lemma HoldoutIsTheShare(n: nat, ratio: real)
    requires n >= 2
    ensures var share, count := n as real * ratio, HoldoutCount(n, ratio);
            && (share <= 0.5 ==> count == 1)
            && (share >= n as real - 0.5 ==> count == n - 1)
            && (0.5 <= share <= n as real - 0.5 ==> -0.5 <= count as real - share <= 0.5)
            && (1.0 <= share <= (n - 1) as real && (count as real - share == 0.5 || count as real - share == -0.5) ==>
                  count % 2 == 0)
  {
    var share := n as real * ratio;
    var wanted := Round(share);
    RoundAtLeast(share, wanted);
    RoundAtLeast(share, wanted + 1);
    RoundAtLeast(share, 1);
    RoundAtLeast(share, n - 1);
    RoundAtLeast(share, n);
  }

  /** The groups of a tag, by text hash. */
  function Hashes(examples: seq<Example>, tag: string): set<string> {
    set e: Example | e in examples && e.tag == tag :: e.textHash
  }

  function HashKey(h: string): seq<string> {
    [h]
  }

  predicate StrLess(a: string, b: string) {
    a != b && StrLeq(a, b)
  }

  predicate Increasing(ordered: seq<string>) {
    forall i, j :: 0 <= i < j < |ordered| ==> StrLess(ordered[i], ordered[j])
  }

  /** Number of groups before this one. */
  function Rank(hashes: set<string>, h: string): nat {
    |set x | x in hashes && StrLess(x, h)|
  }

  /** The first groups of each tag, by hash, are held out. */
  predicate HeldOut(examples: seq<Example>, ratio: real, tag: string, hash: string) {
    var hashes := Hashes(examples, tag);
    Rank(hashes, hash) < HoldoutCount(|hashes|, ratio)
  }

  /** One side of the split: the examples of these labels whose group is held out, or those whose group is not. */
  ghost function Side(examples: seq<Example>, labels: seq<string>, ratio: real, held: bool): iset<Example> {
    iset e: Example | e.tag in labels && HeldOut(examples, ratio, e.tag, e.textHash) == held
  }

  /** `part` holds the chosen examples as often as they were given, and nothing else. */
  ghost predicate Picks(part: seq<Example>, examples: seq<Example>, chosen: iset<Example>) {
    forall e: Example :: multiset(part)[e] == if e in chosen then multiset(examples)[e] else 0
  }

  /** The split without its loops. */
  ghost predicate IsSplit(examples: seq<Example>, labels: seq<string>, ratio: real, split: Split) {
    && Sorted(split.train, SortKey) && Picks(split.train, examples, Side(examples, labels, ratio, false))
    && Sorted(split.holdout, SortKey) && Picks(split.holdout, examples, Side(examples, labels, ratio, true))
  }

  lemma PicksJoin(part: seq<Example>, more: seq<Example>, examples: seq<Example>, a: iset<Example>, b: iset<Example>)
    requires Picks(part, examples, a) && Picks(more, examples, b) && a !! b
    ensures Picks(part + more, examples, a + b)
  {
    forall e: Example
      ensures multiset(part + more)[e] == if e in a + b then multiset(examples)[e] else 0
    {
      assert multiset(part + more)[e] == multiset(part)[e] + multiset(more)[e];
    }
  }

  lemma PicksPresent(part: seq<Example>, examples: seq<Example>, a: iset<Example>, b: iset<Example>)
    requires Picks(part, examples, a)
    requires forall e: Example :: e in examples ==> (e in a <==> e in b)
    ensures Picks(part, examples, b)
  {
    forall e: Example ensures multiset(part)[e] == if e in b then multiset(examples)[e] else 0 {
      if e !in examples {
        assert multiset(examples)[e] == 0;
      }
    }
  }

  // ---------- the loops ----------

  type Groups = map<string, map<string, seq<Example>>>

  function GroupOf(groups: Groups, tag: string, hash: string): seq<Example> {
    if tag in groups && hash in groups[tag] then groups[tag][hash] else []
  }

  ghost function OneGroup(tag: string, hash: string): iset<Example> {
    iset e: Example | e.tag == tag && e.textHash == hash
  }

  /** Everything read so far is in the group of its tag and hash, and only groups with members exist. */
  ghost predicate Grouped(groups: Groups, examples: seq<Example>) {
    && (forall tag: string, hash: string :: Picks(GroupOf(groups, tag, hash), examples, OneGroup(tag, hash)))
    && (forall tag, hash :: tag in groups && hash in groups[tag] <==> hash in Hashes(examples, tag))
  }

  /** groups.setdefault(label, {}).setdefault(hash, []).append(example). */
  function AddTo(groups: Groups, e: Example): Groups {
    var byHash := if e.tag in groups then groups[e.tag] else map[];
    groups[e.tag := byHash[e.textHash := GroupOf(groups, e.tag, e.textHash) + [e]]]
  }

  lemma AddToGroup(groups: Groups, e: Example, tag: string, hash: string)
    ensures GroupOf(AddTo(groups, e), tag, hash)
            == GroupOf(groups, tag, hash) + (if e.tag == tag && e.textHash == hash then [e] else [])
    ensures (tag in AddTo(groups, e) && hash in AddTo(groups, e)[tag])
            <==> (tag in groups && hash in groups[tag]) || (e.tag == tag && e.textHash == hash)
  {
  }

  lemma HashesGrow(seen: seq<Example>, e: Example, tag: string)
    ensures Hashes(seen + [e], tag) == Hashes(seen, tag) + (if e.tag == tag then {e.textHash} else {})
  {
    forall h ensures h in Hashes(seen + [e], tag) <==> h in Hashes(seen, tag) || (e.tag == tag && h == e.textHash) {
      if h in Hashes(seen, tag) {
        var x :| x in seen && x.tag == tag && x.textHash == h;
        assert x in seen + [e];
      }
      assert e in seen + [e];
    }
  }

  lemma AddKeepsGrouped(groups: Groups, seen: seq<Example>, e: Example)
    requires Grouped(groups, seen)
    ensures Grouped(AddTo(groups, e), seen + [e])
  {
    forall tag: string, hash: string
      ensures Picks(GroupOf(AddTo(groups, e), tag, hash), seen + [e], OneGroup(tag, hash))
    {
      AddToGroup(groups, e, tag, hash);
      assert Picks(GroupOf(groups, tag, hash), seen, OneGroup(tag, hash));
    }
    forall tag, hash
      ensures tag in AddTo(groups, e) && hash in AddTo(groups, e)[tag] <==> hash in Hashes(seen + [e], tag)
    {
      AddToGroup(groups, e, tag, hash);
      HashesGrow(seen, e, tag);
    }
  }

  method GroupByLabel(examples: seq<Example>) returns (groups: Groups)
    ensures Grouped(groups, examples)
  {
    groups := map[];
    for k := 0 to |examples|
      invariant Grouped(groups, examples[..k])
    {
      var e := examples[k];
      assert examples[..k + 1] == examples[..k] + [e];
      AddKeepsGrouped(groups, examples[..k], e);
      groups := AddTo(groups, e);
    }
    assert examples[..|examples|] == examples;
  }

  /** sorted(groups): the hashes of a tag in order. */
  method SortedHashes(hashes: set<string>) returns (ordered: seq<string>)
    ensures Elements(ordered) == hashes && Distinct(ordered) && Increasing(ordered)
  {
    var rest, listed: seq<string> := hashes, [];
    while rest != {}
      invariant rest <= hashes && Elements(listed) == hashes - rest && Distinct(listed)
      decreases rest
    {
      var h :| h in rest;
      assert Elements(listed + [h]) == Elements(listed) + {h};
      listed := listed + [h];
      rest := rest - {h};
    }
    ordered := Sort(listed, HashKey);
    SortedDistinct(listed);
  }

  lemma SortedDistinct(listed: seq<string>)
    requires Distinct(listed)
    ensures var ordered := Sort(listed, HashKey);
            Elements(ordered) == Elements(listed) && Distinct(ordered) && Increasing(ordered)
  {
    var ordered := Sort(listed, HashKey);
    SortIsSorted(listed, HashKey);
    assert |multiset(ordered)| == |multiset(listed)|;
    forall x ensures x in ordered <==> x in listed {
      assert x in multiset(ordered) <==> x in multiset(listed);
    }
    assert Elements(ordered) == Elements(listed);
    DistinctCardinality(listed);
    SameSizeDistinct(ordered);
    forall i, j | 0 <= i < j < |ordered| ensures StrLess(ordered[i], ordered[j]) {
      assert KeyLeq(HashKey(ordered[i]), HashKey(ordered[j]));
    }
  }

  /** As many elements as places: no repetition. */
  lemma {:induction false} SameSizeDistinct(s: seq<string>)
    requires |Elements(s)| == |s|
    ensures Distinct(s)
  {
    if s == [] {
    } else {
      var n := |s| - 1;
      assert Elements(s) == Elements(s[..n]) + {s[n]};
      ElementsAtMost(s[..n]);
      SameSizeDistinct(s[..n]);
      assert s[n] !in s[..n];
    }
  }

  lemma {:induction false} ElementsAtMost(s: seq<string>)
    ensures |Elements(s)| <= |s|
  {
    if s == [] {
    } else {
      var n := |s| - 1;
      ElementsAtMost(s[..n]);
      assert Elements(s) == Elements(s[..n]) + {s[n]};
    }
  }

  /** In the sorted list of hashes, a hash stands at its rank. */
  lemma PositionIsRank(hashes: set<string>, ordered: seq<string>, i: nat)
    requires Elements(ordered) == hashes && Distinct(ordered) && Increasing(ordered) && i < |ordered|
    ensures Rank(hashes, ordered[i]) == i
  {
    var smaller := set x | x in hashes && StrLess(x, ordered[i]);
    assert smaller == Elements(ordered[..i]) by {
      forall x ensures x in smaller <==> x in Elements(ordered[..i]) {
        if x in smaller {
          assert x in Elements(ordered);
          var k :| 0 <= k < |ordered| && ordered[k] == x;
          StrTotal(x, ordered[i]);
          assert k < i && ordered[..i][k] == x;
        }
      }
    }
    DistinctCardinality(ordered[..i]);
  }

  lemma HeldOutIsPosition(examples: seq<Example>, ratio: real, tag: string, ordered: seq<string>, i: nat)
    requires Elements(ordered) == Hashes(examples, tag) && Distinct(ordered) && Increasing(ordered) && i < |ordered|
    ensures HeldOut(examples, ratio, tag, ordered[i]) <==> i < HoldoutCount(|ordered|, ratio)
  {
    PositionIsRank(Hashes(examples, tag), ordered, i);
    DistinctCardinality(ordered);
  }

  /** The examples of one label and of some of its groups that belong on one side. */
  ghost function Dealt(examples: seq<Example>, ratio: real, tag: string, hashes: seq<string>, held: bool): iset<Example>
  {
    iset e: Example | e.tag == tag && e.textHash in hashes && HeldOut(examples, ratio, tag, e.textHash) == held
  }

  lemma NextDealt(examples: seq<Example>, ratio: real, tag: string, ordered: seq<string>, index: nat, held: bool)
    requires index < |ordered| && Distinct(ordered)
    ensures var hash := ordered[index]; var before := Dealt(examples, ratio, tag, ordered[..index], held);
            && before !! OneGroup(tag, hash)
            && Dealt(examples, ratio, tag, ordered[..index + 1], held)
               == if HeldOut(examples, ratio, tag, hash) == held then before + OneGroup(tag, hash) else before
  {
    assert ordered[..index + 1] == ordered[..index] + [ordered[index]];
  }

  /** One label: its first groups go to the holdout, the others to the training side. */
  method DealLabel(examples: seq<Example>, byHash: map<string, seq<Example>>, ratio: real, ghost tag: string)
    returns (train: seq<Example>, holdout: seq<Example>)
    requires byHash.Keys == Hashes(examples, tag)
    requires forall hash :: hash in byHash ==> Picks(byHash[hash], examples, OneGroup(tag, hash))
    ensures Picks(train, examples, Side(examples, [tag], ratio, false))
    ensures Picks(holdout, examples, Side(examples, [tag], ratio, true))
  {
    var ordered := SortedHashes(byHash.Keys);
    DistinctCardinality(ordered);
    var count := HoldoutCount(|ordered|, ratio);
    train, holdout := [], [];
    for index := 0 to |ordered|
      invariant Picks(train, examples, Dealt(examples, ratio, tag, ordered[..index], false))
      invariant Picks(holdout, examples, Dealt(examples, ratio, tag, ordered[..index], true))
    {
      var hash := ordered[index];
      assert hash in Elements(ordered);
      HeldOutIsPosition(examples, ratio, tag, ordered, index);
      NextDealt(examples, ratio, tag, ordered, index, false);
      NextDealt(examples, ratio, tag, ordered, index, true);
      if index < count {
        PicksJoin(holdout, byHash[hash], examples,
                  Dealt(examples, ratio, tag, ordered[..index], true), OneGroup(tag, hash));
        holdout := holdout + byHash[hash];
      } else {
        PicksJoin(train, byHash[hash], examples,
                  Dealt(examples, ratio, tag, ordered[..index], false), OneGroup(tag, hash));
        train := train + byHash[hash];
      }
    }
    assert ordered[..|ordered|] == ordered;
    AllDealt(examples, ratio, tag, ordered, train, false);
    AllDealt(examples, ratio, tag, ordered, holdout, true);
  }

  lemma AllDealt(examples: seq<Example>, ratio: real, tag: string, ordered: seq<string>, part: seq<Example>, held: bool)
    requires Elements(ordered) == Hashes(examples, tag)
    requires Picks(part, examples, Dealt(examples, ratio, tag, ordered, held))
    ensures Picks(part, examples, Side(examples, [tag], ratio, held))
  {
    forall e: Example | e in examples && e.tag == tag ensures e.textHash in ordered {
      assert e.textHash in Elements(ordered);
    }
    PicksPresent(part, examples, Dealt(examples, ratio, tag, ordered, held), Side(examples, [tag], ratio, held));
  }

  /** `labels` is the list of known labels; examples of other labels are dropped. */
  method SplitDataset(examples: seq<Example>, labels: seq<string>, ratio: real) returns (split: Split)
    requires Distinct(labels)
    ensures IsSplit(examples, labels, ratio, split)
  {
    var groups := GroupByLabel(examples);
    var train: seq<Example>, holdout: seq<Example> := [], [];
    for k := 0 to |labels|
      invariant Picks(train, examples, Side(examples, labels[..k], ratio, false))
      invariant Picks(holdout, examples, Side(examples, labels[..k], ratio, true))
    {
      var tag := labels[k];
      var byHash := if tag in groups then groups[tag] else map[];
      GroupsOfLabel(groups, examples, tag, byHash);
      var more, held := DealLabel(examples, byHash, ratio, tag);
      NextSide(examples, labels, k, ratio, false);
      NextSide(examples, labels, k, ratio, true);
      PicksJoin(train, more, examples, Side(examples, labels[..k], ratio, false), Side(examples, [tag], ratio, false));
      PicksJoin(holdout, held, examples, Side(examples, labels[..k], ratio, true), Side(examples, [tag], ratio, true));
      train := train + more;
      holdout := holdout + held;
    }
    assert labels[..|labels|] == labels;
    SortIsSorted(train, SortKey);
    SortIsSorted(holdout, SortKey);
    split := Split(Sort(train, SortKey), Sort(holdout, SortKey));
  }

  lemma GroupsOfLabel(groups: Groups, examples: seq<Example>, tag: string, byHash: map<string, seq<Example>>)
    requires Grouped(groups, examples) && byHash == if tag in groups then groups[tag] else map[]
    ensures byHash.Keys == Hashes(examples, tag)
    ensures forall hash :: hash in byHash ==> Picks(byHash[hash], examples, OneGroup(tag, hash))
  {
    forall hash | hash in byHash ensures Picks(byHash[hash], examples, OneGroup(tag, hash)) {
      assert byHash[hash] == GroupOf(groups, tag, hash);
    }
  }

  lemma NextSide(examples: seq<Example>, labels: seq<string>, k: nat, ratio: real, held: bool)
    requires k < |labels| && Distinct(labels)
    ensures Side(examples, labels[..k], ratio, held) !! Side(examples, [labels[k]], ratio, held)
    ensures Side(examples, labels[..k + 1], ratio, held)
            == Side(examples, labels[..k], ratio, held) + Side(examples, [labels[k]], ratio, held)
  {
    assert labels[..k + 1] == labels[..k] + [labels[k]];
  }

  // ---------- what a split is good for ----------

  /** The loaded examples: the text and its label determine an example, and the hash its normalized text. */
  predicate KeyDetermines(examples: seq<Example>) {
    forall x, y | x in examples && y in examples && SortKey(x) == SortKey(y) :: x == y
  }

  /** The order of the examples does not matter. */
  lemma SplitIgnoresOrder(a: seq<Example>, b: seq<Example>, labels: seq<string>, ratio: real, s: Split, t: Split)
    requires multiset(a) == multiset(b) && KeyDetermines(a)
    requires IsSplit(a, labels, ratio, s) && IsSplit(b, labels, ratio, t)
    ensures s == t
  {
    SideIgnoresOrder(a, b, labels, ratio, s.train, t.train, false);
    SideIgnoresOrder(a, b, labels, ratio, s.holdout, t.holdout, true);
  }

  lemma SideIgnoresOrder(a: seq<Example>, b: seq<Example>, labels: seq<string>, ratio: real,
                         s: seq<Example>, t: seq<Example>, held: bool)
    requires multiset(a) == multiset(b) && KeyDetermines(a) && Sorted(s, SortKey) && Sorted(t, SortKey)
    requires Picks(s, a, Side(a, labels, ratio, held)) && Picks(t, b, Side(b, labels, ratio, held))
    ensures s == t
  {
    HeldOutIgnoresOrder(a, b, ratio);
    assert Side(a, labels, ratio, held) == Side(b, labels, ratio, held);
    forall e: Example ensures multiset(s)[e] == multiset(t)[e] {
    }
    PicksFrom(s, a, Side(a, labels, ratio, held));
    SortedIsUnique(s, t, SortKey);
  }

  lemma HeldOutIgnoresOrder(a: seq<Example>, b: seq<Example>, ratio: real)
    requires multiset(a) == multiset(b)
    ensures forall tag, hash :: HeldOut(a, ratio, tag, hash) == HeldOut(b, ratio, tag, hash)
  {
    forall e: Example ensures e in a <==> e in b {
      assert e in multiset(a) <==> e in multiset(b);
    }
    forall tag ensures Hashes(a, tag) == Hashes(b, tag) {
    }
  }

  lemma PicksFrom(part: seq<Example>, examples: seq<Example>, chosen: iset<Example>)
    requires Picks(part, examples, chosen)
    ensures forall e: Example :: e in part <==> e in examples && e in chosen
  {
    forall e: Example ensures e in part <==> e in examples && e in chosen {
      assert e in part <==> multiset(part)[e] > 0;
      assert e in examples <==> multiset(examples)[e] > 0;
    }
  }

  /** Nothing with a known label is lost or doubled. */
  lemma SplitConserves(examples: seq<Example>, labels: seq<string>, ratio: real, split: Split)
    requires IsSplit(examples, labels, ratio, split)
    ensures forall e: Example ::
              multiset(split.train + split.holdout)[e] == if e.tag in labels then multiset(examples)[e] else 0
  {
    forall e: Example
      ensures multiset(split.train + split.holdout)[e] == if e.tag in labels then multiset(examples)[e] else 0
    {
      assert multiset(split.train + split.holdout)[e] == multiset(split.train)[e] + multiset(split.holdout)[e];
    }
  }

  /** No group is on both sides; and when no text carries two labels, no text is. */
  lemma SplitDoesNotLeak(examples: seq<Example>, labels: seq<string>, ratio: real, split: Split, x: Example, y: Example)
    requires IsSplit(examples, labels, ratio, split) && x in split.train && y in split.holdout
    ensures x.tag != y.tag || x.textHash != y.textHash
    ensures (forall p, q | p in examples && q in examples && p.textHash == q.textHash :: p.tag == q.tag)
            ==> x.textHash != y.textHash
  {
    PicksFrom(split.train, examples, Side(examples, labels, ratio, false));
    PicksFrom(split.holdout, examples, Side(examples, labels, ratio, true));
  }

  /** A known label with two groups or more is on both sides, one with a single group only in the training side. */
  lemma EveryLabelIsTrainedAndHeldOut(examples: seq<Example>, labels: seq<string>, ratio: real, split: Split,
                                      tag: string)
    requires IsSplit(examples, labels, ratio, split) && tag in labels
    ensures |Hashes(split.holdout, tag)| == HoldoutCount(|Hashes(examples, tag)|, ratio)
    ensures |Hashes(split.train, tag)| == |Hashes(examples, tag)| - HoldoutCount(|Hashes(examples, tag)|, ratio)
    ensures |Hashes(examples, tag)| >= 2 ==> Hashes(split.holdout, tag) != {} && Hashes(split.train, tag) != {}
    ensures |Hashes(examples, tag)| == 1 ==>
              Hashes(split.holdout, tag) == {} && Hashes(split.train, tag) == Hashes(examples, tag)
  {
    var ordered := InOrder(Hashes(examples, tag));
    DistinctCardinality(ordered);
    SidePositions(examples, labels, ratio, split.holdout, tag, ordered, true);
    SidePositions(examples, labels, ratio, split.train, tag, ordered, false);
    HeldOutHashes(ordered, HoldoutCount(|ordered|, ratio), Hashes(split.holdout, tag), Hashes(split.train, tag));
  }

  ghost predicate StrBefore(a: string, b: string) {
    exists k: nat :: BeforeAt(a, b, k)
  }

  /** The groups held out of a label come before those kept, in the lexicographic order of their hashes. */
  lemma HoldoutComesFirst(examples: seq<Example>, labels: seq<string>, ratio: real, split: Split, x: Example,
                          y: Example)
    requires IsSplit(examples, labels, ratio, split) && x in split.holdout && y in split.train && x.tag == y.tag
    ensures StrBefore(x.textHash, y.textHash)
  {
    PicksFrom(split.train, examples, Side(examples, labels, ratio, false));
    PicksFrom(split.holdout, examples, Side(examples, labels, ratio, true));
    var hashes := Hashes(examples, x.tag);
    if !StrLess(x.textHash, y.textHash) {
      StrTotal(x.textHash, y.textHash);
      var smaller := set h | h in hashes && StrLess(h, x.textHash);
      var smallest := set h | h in hashes && StrLess(h, y.textHash);
      forall h | h in smallest ensures h in smaller {
        StrTransitive(h, y.textHash, x.textHash);
        StrTotal(h, y.textHash);
      }
      SubsetCardinality(smallest, smaller);
      assert false;
    }
    StrLeqIsLexicographic(x.textHash, y.textHash);
  }

  /** Each side is in lexicographic order of label, hash and text. */
  lemma SidesAreInOrder(part: seq<Example>, i: nat, j: nat)
    requires Sorted(part, SortKey) && i < j < |part|
    ensures var x, y := part[i], part[j];
            || StrBefore(x.tag, y.tag)
            || (x.tag == y.tag && StrBefore(x.textHash, y.textHash))
            || (x.tag == y.tag && x.textHash == y.textHash && (StrBefore(x.text, y.text) || x.text == y.text))
  {
    var x, y := part[i], part[j];
    assert KeyLeq(SortKey(x), SortKey(y));
    StrLeqIsLexicographic(x.tag, y.tag);
    StrLeqIsLexicographic(x.textHash, y.textHash);
    StrLeqIsLexicographic(x.text, y.text);
    ThreeKeys(x.tag, x.textHash, x.text, y.tag, y.textHash, y.text);
  }

  lemma ThreeKeys(a: string, b: string, c: string, x: string, y: string, z: string)
    ensures KeyLeq([a, b, c], [x, y, z])
            <==> if a != x then StrLeq(a, x) else if b != y then StrLeq(b, y) else c == z || StrLeq(c, z)
  {
    assert [a, b, c][1..] == [b, c] && [x, y, z][1..] == [y, z];
    TwoKeys(b, c, y, z);
  }

  lemma TwoKeys(a: string, b: string, x: string, y: string)
    ensures KeyLeq([a, b], [x, y]) <==> if a != x then StrLeq(a, x) else b == y || StrLeq(b, y)
  {
    assert [a, b][1..] == [b] && [x, y][1..] == [y] && [b][1..] == [] && [y][1..] == [];
    assert KeyLeq([b], [y]) <==> b == y || StrLeq(b, y);
  }

  lemma SidePositions(examples: seq<Example>, labels: seq<string>, ratio: real, part: seq<Example>, tag: string,
                      ordered: seq<string>, held: bool)
    requires Picks(part, examples, Side(examples, labels, ratio, held)) && tag in labels
    requires Elements(ordered) == Hashes(examples, tag) && Distinct(ordered) && Increasing(ordered)
    ensures Hashes(part, tag) <= Elements(ordered)
    ensures forall i :: 0 <= i < |ordered| ==>
              (ordered[i] in Hashes(part, tag) <==> (i < HoldoutCount(|ordered|, ratio)) == held)
  {
    SideHashes(examples, labels, ratio, part, tag, held);
    forall i | 0 <= i < |ordered|
      ensures ordered[i] in Hashes(part, tag) <==> (i < HoldoutCount(|ordered|, ratio)) == held
    {
      assert ordered[i] in Elements(ordered);
      HeldOutIsPosition(examples, ratio, tag, ordered, i);
    }
  }

  lemma SideHashes(examples: seq<Example>, labels: seq<string>, ratio: real, part: seq<Example>, tag: string,
                   held: bool)
    requires Picks(part, examples, Side(examples, labels, ratio, held)) && tag in labels
    ensures forall h ::
              h in Hashes(part, tag) <==> h in Hashes(examples, tag) && HeldOut(examples, ratio, tag, h) == held
  {
    PicksFrom(part, examples, Side(examples, labels, ratio, held));
    forall h | h in Hashes(examples, tag) && HeldOut(examples, ratio, tag, h) == held ensures h in Hashes(part, tag) {
      var e: Example :| e in examples && e.tag == tag && e.textHash == h;
      assert e in part;
    }
  }

  lemma HeldOutHashes(ordered: seq<string>, count: nat, held: set<string>, kept: set<string>)
    requires count <= |ordered| && Distinct(ordered) && held <= Elements(ordered) && kept <= Elements(ordered)
    requires forall i :: 0 <= i < |ordered| ==> (ordered[i] in held <==> i < count)
    requires forall i :: 0 <= i < |ordered| ==> (ordered[i] in kept <==> i >= count)
    ensures |held| == count && |kept| == |ordered| - count && (count == 0 ==> kept == Elements(ordered))
  {
    forall h ensures h in held <==> h in ordered[..count] {
      if h in held {
        assert h in Elements(ordered);
        var i :| 0 <= i < |ordered| && ordered[i] == h;
        assert ordered[..count][i] == h;
      }
    }
    forall h ensures h in kept <==> h in ordered[count..] {
      if h in kept {
        assert h in Elements(ordered);
        var i :| 0 <= i < |ordered| && ordered[i] == h;
        assert ordered[count..][i - count] == h;
      }
    }
    assert held == Elements(ordered[..count]) && kept == Elements(ordered[count..]);
    DistinctCardinality(ordered[..count]);
    DistinctCardinality(ordered[count..]);
  }

  lemma InOrder(hashes: set<string>) returns (ordered: seq<string>)
    ensures Elements(ordered) == hashes && Distinct(ordered) && Increasing(ordered)
  {
    var listed := Listing(hashes);
    SortedDistinct(listed);
    ordered := Sort(listed, HashKey);
  }

  lemma {:induction false} Listing(hashes: set<string>) returns (listed: seq<string>)
    ensures Elements(listed) == hashes && Distinct(listed)
  {
    if hashes == {} {
      listed := [];
    } else {
      var h :| h in hashes;
      var rest := Listing(hashes - {h});
      listed := rest + [h];
      assert Elements(listed) == Elements(rest) + {h};
      assert h !in Elements(rest);
    }
  }

  // ---------- the checksum ----------

  function PairOf(e: Example): seq<string> {
    [e.textHash, e.tag]
  }

  function Pairs(examples: seq<Example>): seq<seq<string>> {
    if examples == [] then [] else [PairOf(examples[0])] + Pairs(examples[1..])
  }

  /** What is serialized and hashed. */
  function ChecksumPayload(examples: seq<Example>): seq<seq<string>> {
    Pairs(Sort(examples, PairOf))
  }

  /** Taking the pairs and sorting them can change places. */
  lemma {:induction false} PairsOfInsert(x: Example, s: seq<Example>)
    ensures Pairs(Insert(x, s, PairOf)) == Insert(PairOf(x), Pairs(s), Itself)
  {
    if s == [] || KeyLeq(PairOf(x), PairOf(s[0])) {
    } else {
      PairsOfInsert(x, s[1..]);
    }
  }

  lemma {:induction false} PairsOfSort(s: seq<Example>)
    ensures ChecksumPayload(s) == Sort(Pairs(s), Itself)
  {
    if s == [] {
    } else {
      PairsOfSort(s[1..]);
      PairsOfInsert(s[0], Sort(s[1..], PairOf));
    }
  }

  function Itself(pair: seq<string>): seq<string> {
    pair
  }

  lemma {:induction false} PairsAre(examples: seq<Example>)
    ensures |Pairs(examples)| == |examples|
    ensures forall i :: 0 <= i < |examples| ==> Pairs(examples)[i] == [examples[i].textHash, examples[i].tag]
  {
    if examples == [] {
    } else {
      PairsAre(examples[1..]);
    }
  }

  /** The payload lists the hash and label of every example, in lexicographic order. */
  lemma PayloadIsInOrder(examples: seq<Example>, i: nat, j: nat)
    requires i < j < |ChecksumPayload(examples)|
    ensures multiset(ChecksumPayload(examples)) == multiset(Pairs(examples))
    ensures var p, q := ChecksumPayload(examples)[i], ChecksumPayload(examples)[j];
            && |p| == |q| == 2
            && (StrBefore(p[0], q[0]) || (p[0] == q[0] && (StrBefore(p[1], q[1]) || p[1] == q[1])))
  {
    var payload := ChecksumPayload(examples);
    PairsOfSort(examples);
    SortIsSorted(Pairs(examples), Itself);
    PairsAre(Sort(examples, PairOf));
    var p, q := payload[i], payload[j];
    assert p == [p[0], p[1]] && q == [q[0], q[1]];
    PairsInOrder(p[0], p[1], q[0], q[1]);
  }

  lemma PairsInOrder(a: string, b: string, x: string, y: string)
    requires KeyLeq(Itself([a, b]), Itself([x, y]))
    ensures StrBefore(a, x) || (a == x && (StrBefore(b, y) || b == y))
  {
    TwoKeys(a, b, x, y);
    StrLeqIsLexicographic(a, x);
    StrLeqIsLexicographic(b, y);
  }

  /** Two datasets have the same payload exactly when they have the same labelled text hashes, in any order. */
  lemma PayloadIsTheContents(a: seq<Example>, b: seq<Example>)
    ensures ChecksumPayload(a) == ChecksumPayload(b) <==> multiset(Pairs(a)) == multiset(Pairs(b))
  {
    PairsOfSort(a);
    PairsOfSort(b);
    SortIsSorted(Pairs(a), Itself);
    SortIsSorted(Pairs(b), Itself);
    if multiset(Pairs(a)) == multiset(Pairs(b)) {
      SortedIsUnique(ChecksumPayload(a), ChecksumPayload(b), Itself);
    }
  }

  function AllFields(e: Example): seq<string> {
    [e.text, e.tag, e.normalizedText, e.textHash]
  }

  lemma {:induction false} SortKeepsPairs(s: seq<Example>)
    ensures multiset(Pairs(Sort(s, AllFields))) == multiset(Pairs(s))
  {
    if s == [] {
    } else {
      SortKeepsPairs(s[1..]);
      InsertAddsPair(s[0], Sort(s[1..], AllFields));
    }
  }

  lemma {:induction false} InsertAddsPair(x: Example, s: seq<Example>)
    ensures multiset(Pairs(Insert(x, s, AllFields))) == multiset(Pairs(s)) + multiset{PairOf(x)}
  {
    if s == [] || KeyLeq(AllFields(x), AllFields(s[0])) {
    } else {
      InsertAddsPair(x, s[1..]);
    }
  }

  /** The order of the examples does not matter for the checksum either. */
  lemma ChecksumIgnoresOrder(a: seq<Example>, b: seq<Example>)
    requires multiset(a) == multiset(b)
    ensures ChecksumPayload(a) == ChecksumPayload(b)
  {
    SortIsSorted(a, AllFields);
    SortIsSorted(b, AllFields);
    SortedIsUnique(Sort(a, AllFields), Sort(b, AllFields), AllFields);
    SortKeepsPairs(a);
    SortKeepsPairs(b);
    PayloadIsTheContents(a, b);
  }

  lemma LabelsAreDistinct()
    ensures Distinct(CLASSIFICATION_LABELS)
  {
    forall i, j | 0 <= i < j < |CLASSIFICATION_LABELS| ensures CLASSIFICATION_LABELS[i] != CLASSIFICATION_LABELS[j] {
      var a, b := CLASSIFICATION_LABELS[i], CLASSIFICATION_LABELS[j];
      assert |a| != |b| || a[0] != b[0];
    }
  }
}
