/** A queue together with everything that ever entered it, what was taken from its head, and
    how many elements were thrown away from its head to make room. */
module QueueHistory {
  import opened Subsequences

  /** The queue is the end of what entered; what was taken before it is a subsequence, in
      order, of the rest. */
  ghost predicate HistoryInv<T(!new)>(items: seq<T>, entered: seq<T>, taken: seq<T>, evicted: nat) {
    && |items| <= |entered|
    && items == entered[|entered| - |items|..]
    && Subseq(taken, entered[..|entered| - |items|])
    && |taken| + evicted == |entered| - |items|
  }

  lemma HistoryEmpty<T(!new)>()
    ensures HistoryInv<T>([], [], [], 0)
  {
    SubseqEmpty<T>([]);
  }

  lemma PrefixGrows<T>(s: seq<T>, g: nat)
    requires g < |s|
    ensures s[..g + 1] == s[..g] + [s[g]] && s[g..] == [s[g]] + s[g + 1..] && s[g..][0] == s[g] && s[g..][1..] == s[g + 1..]
  {}

  lemma SnocSlices<T>(s: seq<T>, g: nat, x: T)
    requires g <= |s|
    ensures (s + [x])[..g] == s[..g] && (s + [x])[g..] == s[g..] + [x]
  {}

  lemma HistoryPush<T(!new)>(items: seq<T>, entered: seq<T>, taken: seq<T>, evicted: nat, x: T)
    requires HistoryInv(items, entered, taken, evicted)
    ensures HistoryInv(items + [x], entered + [x], taken, evicted)
    ensures items != [] ==> HistoryInv(items[1..] + [x], entered + [x], taken, evicted + 1)
  {
    hide Subseq;
    var g := |entered| - |items|;
    SnocSlices(entered, g, x);
    if items != [] {
      PrefixGrows(entered, g);
      SnocSlices(entered, g + 1, x);
      SubseqSkip(taken, entered[..g], entered[g]);
    }
  }

  lemma HistoryPop<T(!new)>(items: seq<T>, entered: seq<T>, taken: seq<T>, evicted: nat)
    requires HistoryInv(items, entered, taken, evicted) && items != []
    ensures HistoryInv(items[1..], entered, taken + [items[0]], evicted)
  {
    hide Subseq;
    var g := |entered| - |items|;
    PrefixGrows(entered, g);
    SubseqTake(taken, entered[..g], entered[g]);
  }

  lemma {:induction false} HistoryDrain<T(!new)>(items: seq<T>, entered: seq<T>, taken: seq<T>, evicted: nat)
    requires HistoryInv(items, entered, taken, evicted)
    ensures HistoryInv([], entered, taken + items, evicted)
    decreases |items|
  {
    hide HistoryInv;
    if items == [] {
      assert taken + items == taken;
    } else {
      HistoryPop(items, entered, taken, evicted);
      HistoryDrain(items[1..], entered, taken + [items[0]], evicted);
      assert taken + [items[0]] + items[1..] == taken + items;
    }
  }

  lemma HistorySize<T(!new)>(items: seq<T>, entered: seq<T>, taken: seq<T>, evicted: nat)
    requires HistoryInv(items, entered, taken, evicted)
    ensures |items| <= |entered|
  {}

  /** Everything taken comes, in order, from what entered. */
  lemma TakenInOrder<T(!new)>(items: seq<T>, entered: seq<T>, taken: seq<T>, evicted: nat)
    requires HistoryInv(items, entered, taken, evicted)
    ensures Subseq(taken, entered)
  {
    hide Subseq;
    var g := |entered| - |items|;
    SubseqOfPrefix(taken, entered[..g], entered[g..]);
    assert entered[..g] + entered[g..] == entered;
  }
}
