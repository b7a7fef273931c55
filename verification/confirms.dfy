/** The heap of delivery tags (streadway/amqp types.go, under the container/heap algorithms). */
module TagHeap {
  type Tags = seq<nat>

  function Parent(k: nat): nat
    requires k > 0
  {
    (k - 1) / 2
  }

  predicate Heap(s: Tags) {
    forall k :: 0 < k < |s| ==> s[Parent(k)] <= s[k]
  }

  /** A heap but for the place `j`, which may be smaller than its parent. */
  predicate HeapButUp(s: Tags, j: nat) {
    && (forall k :: 0 < k < |s| && k != j ==> s[Parent(k)] <= s[k])
    && (forall k :: 0 < k < |s| && j > 0 && Parent(k) == j && j < |s| ==> s[Parent(j)] <= s[k])
  }

  /** The first `n` form a heap but for the place `i`, which may be larger than its children. */
  predicate HeapButDown(s: Tags, i: nat, n: nat)
    requires n <= |s|
  {
    && (forall k :: 0 < k < n && Parent(k) != i ==> s[Parent(k)] <= s[k])
    && (forall k :: 0 < k < n && i > 0 && i < n && Parent(k) == i ==> s[Parent(i)] <= s[k])
  }

  function Swapped(s: Tags, i: nat, j: nat): (t: Tags)
    requires i < |s| && j < |s|
    ensures |t| == |s| && multiset(t) == multiset(s)
  {
    SwapKeeps(s, i, j);
    s[i := s[j]][j := s[i]]
  }

  lemma SwapKeeps(s: Tags, i: nat, j: nat)
    requires i < |s| && j < |s|
    ensures multiset(s[i := s[j]][j := s[i]]) == multiset(s)
  {}

  lemma SwapUp(s: Tags, j: nat)
    requires 0 < j < |s| && HeapButUp(s, j) && s[j] < s[Parent(j)]
    ensures HeapButUp(Swapped(s, Parent(j), j), Parent(j))
  {}

  lemma SwapDown(s: Tags, i: nat, j: nat, n: nat)
    requires 0 < j < n <= |s| && Parent(j) == i && HeapButDown(s, i, n) && s[j] < s[i]
    requires forall k :: 0 < k < n && Parent(k) == i ==> s[j] <= s[k]
    ensures HeapButDown(Swapped(s, i, j), j, n)
    ensures Swapped(s, i, j)[n..] == s[n..]
  {}

  /** Sifting down ends at a place without children ... */
  lemma NoChild(s: Tags, i: nat, n: nat)
    requires n <= |s| && HeapButDown(s, i, n) && 2 * i + 1 >= n
    ensures Heap(s[..n])
  {}

  /** ... or at one that is not larger than the lesser of its children. */
  lemma NoLesserChild(s: Tags, i: nat, j: nat, n: nat)
    requires j < n <= |s| && i < n && HeapButDown(s, i, n) && s[i] <= s[j]
    requires forall k :: 0 < k < n && Parent(k) == i ==> s[j] <= s[k]
    ensures Heap(s[..n])
  {}

  lemma LesserChild(s: Tags, i: nat, j: nat, n: nat)
    requires j < n <= |s| && (j == 2 * i + 1 || j == 2 * i + 2)
    requires 2 * i + 1 < n && s[j] <= s[2 * i + 1] && (2 * i + 2 < n ==> s[j] <= s[2 * i + 2])
    ensures Parent(j) == i && forall k :: 0 < k < n && Parent(k) == i ==> s[j] <= s[k]
  {}

  lemma {:induction false} RootIsLeast(s: Tags, k: nat)
    requires Heap(s) && k < |s|
    ensures s[0] <= s[k]
  {
    if k > 0 {
      RootIsLeast(s, Parent(k));
    }
  }

  class TagSet {
    var tags: Tags

    constructor ()
      ensures tags == []
    {
      tags := [];
    }

    predicate Less(i: nat, j: nat)
      requires i < |tags| && j < |tags|
      reads this
    {
      tags[i] < tags[j]
    }

    method Swap(i: nat, j: nat)
      requires i < |tags| && j < |tags|
      modifies this
      ensures tags == Swapped(old(tags), i, j)
    {
      tags := tags[i := tags[j]][j := tags[i]];
    }

    method Up(last: nat)
      requires last < |tags| && HeapButUp(tags, last)
      modifies this
      ensures Heap(tags) && multiset(tags) == multiset(old(tags)) && |tags| == |old(tags)|
    {
      var j: nat := last;
      while j != 0 && Less(j, Parent(j))
        invariant j < |tags| == |old(tags)| && multiset(tags) == multiset(old(tags))
        invariant HeapButUp(tags, j)
        decreases j
      {
        SwapUp(tags, j);
        Swap(Parent(j), j);
        j := Parent(j);
      }
    }

    /** Sinks the first tag among the first `n`; the others stay where they are. */
    method Down(n: nat)
      requires n <= |tags| && HeapButDown(tags, 0, n)
      modifies this
      ensures |tags| == |old(tags)| && Heap(tags[..n]) && multiset(tags) == multiset(old(tags))
      ensures tags[n..] == old(tags)[n..]
    {
      hide Heap, HeapButDown, Swapped, Parent;
      var i := 0;
      while true
        invariant n <= |tags| == |old(tags)| && multiset(tags) == multiset(old(tags)) && tags[n..] == old(tags)[n..]
        invariant HeapButDown(tags, i, n)
        decreases n - i
      {
        var left := 2 * i + 1;
        if left >= n {
          NoChild(tags, i, n);
          break;
        }
        var j := left;
        if left + 1 < n && !Less(left, left + 1) {
          j := left + 1;
        }
        LesserChild(tags, i, j, n);
        if !Less(j, i) {
          NoLesserChild(tags, i, j, n);
          break;
        }
        SwapDown(tags, i, j, n);
        Swap(i, j);
        i := j;
      }
    }

    method Push(tag: nat)
      requires Heap(tags)
      modifies this
      ensures Heap(tags) && multiset(tags) == multiset(old(tags)) + multiset{tag} && |tags| == |old(tags)| + 1
    {
      tags := tags + [tag];
      Up(|tags| - 1);
    }

    /** The least tag of a heap that is not empty. */
    method Pop() returns (tag: nat)
      requires Heap(tags) && tags != []
      modifies this
      ensures Heap(tags) && multiset(tags) == multiset(old(tags)) - multiset{tag} && |tags| == |old(tags)| - 1
      ensures tag in old(tags) && forall t :: t in old(tags) ==> tag <= t
    {
      hide Heap, HeapButDown, Swapped;
      var n := |tags| - 1;
      RootFirst(tags);
      RootToTheEnd(tags, n);
      Swap(0, n);
      Down(n);
      LastOff(tags, n);
      tag := tags[n];
      tags := tags[..n];
    }
  }

  lemma RootFirst(s: Tags)
    requires Heap(s) && s != []
    ensures s[0] in s && forall t :: t in s ==> s[0] <= t
  {
    forall k | 0 <= k < |s| ensures s[0] <= s[k] {
      RootIsLeast(s, k);
    }
  }

  lemma RootToTheEnd(s: Tags, n: nat)
    requires Heap(s) && |s| == n + 1
    ensures HeapButDown(Swapped(s, 0, n), 0, n) && Swapped(s, 0, n)[n..] == [s[0]]
  {}

  lemma LastOff(s: Tags, n: nat)
    requires |s| == n + 1
    ensures multiset(s[..n]) == multiset(s) - multiset{s[n]} && s[n..] == [s[n]]
  {
    assert s == s[..n] + [s[n]];
  }
}

/** Publisher confirms (streadway/amqp channel.go). */
module Confirms {
  import opened TagHeap
  import opened Wire
  import opened Tables
  import opened TableIO

  datatype Kind = Ack | Nack

  /** The members of a set below `n`, ascending. */
  function Below(s: set<nat>, n: nat): seq<nat> {
    if n == 0 then [] else Below(s, n - 1) + (if n - 1 in s then [n - 1] else [])
  }

  /** What is left of a set from `n` on. */
  function From(s: set<nat>, n: nat): set<nat> {
    set t | t in s && t >= n
  }

  lemma {:induction false} BelowIsAscending(s: set<nat>, n: nat)
    ensures forall t :: t in Below(s, n) <==> t in s && t < n
    ensures forall i, j :: 0 <= i < j < |Below(s, n)| ==> Below(s, n)[i] < Below(s, n)[j]
  {
    if n > 0 {
      BelowIsAscending(s, n - 1);
      var b := Below(s, n - 1);
      assert forall i :: 0 <= i < |b| ==> b[i] in b;
    }
  }

  lemma {:induction false} BelowSkips(s: set<nat>, m: nat, n: nat)
    requires m <= n && forall t :: m <= t < n ==> t !in s
    ensures Below(s, n) == Below(s, m)
  {
    if m < n {
      BelowSkips(s, m, n - 1);
    }
  }

  // ---------------------------------------------------------------- the ledger

  /**
   * What confirms come to: the tags that wait, if the channel is in confirm mode, and what was reported,
   * to the listeners for acks, to those for nacks, and altogether in order of time.
   */
  datatype Ledger = Ledger(
    confirming: bool,
    waiting: set<nat>,
    published: nat,
    acks: seq<nat>,
    nacks: seq<nat>,
    reports: seq<nat>)
  {
    function Log(kind: Kind): seq<nat> {
      if kind.Ack? then acks else nacks
    }

    function Report(kind: Kind, tags: seq<nat>): Ledger {
      if kind.Ack? then this.(acks := acks + tags, reports := reports + tags)
      else this.(nacks := nacks + tags, reports := reports + tags)
    }
  }

  const NEW := Ledger(false, {}, 0, [], [], [])

  datatype Event = Confirm | Publish | One(kind: Kind, tag: nat) | Multiple(kind: Kind, tag: nat)

  /** The server confirms tags that wait; a channel not in confirm mode does not look. */
  predicate Legal(l: Ledger, e: Event) {
    l.confirming && (e.One? || e.Multiple?) ==> e.tag in l.waiting
  }

  /** Entering confirm mode starts with nothing waiting, whatever was published or is still waiting. */
  function After(l: Ledger, e: Event): Ledger {
    match e
    case Confirm => l.(confirming := true, waiting := {})
    case Publish =>
      l.(published := l.published + 1, waiting := if l.confirming then l.waiting + {l.published + 1} else l.waiting)
    case One(kind, tag) =>
      if l.confirming then l.(waiting := l.waiting - {tag}).Report(kind, [tag]) else l
    case Multiple(kind, tag) =>
      if l.confirming then
        l.(waiting := From(l.waiting, tag + 1)).Report(kind, Below(l.waiting, tag + 1))
      else l
  }

  // ---------------------------------------------------------------- the channel

  class Publisher {
    var confirms: TagSet?
    var publishCounter: nat
    var acks: seq<nat>
    var nacks: seq<nat>
    ghost var waiting: set<nat>
    ghost var reports: seq<nat>

    constructor ()
      ensures Valid() && Account() == NEW
    {
      confirms, publishCounter, acks, nacks, waiting, reports := null, 0, [], [], {}, [];
    }

    ghost predicate Valid()
      reads this, confirms
    {
      && (confirms != null ==> Heap(confirms.tags) && multiset(confirms.tags) == multiset(waiting))
      && (confirms == null ==> waiting == {})
      && forall t :: t in waiting ==> t <= publishCounter
    }

    ghost function Account(): Ledger
      reads this
    {
      Ledger(confirms != null, waiting, publishCounter, acks, nacks, reports)
    }

    method Confirm()
      requires Valid()
      modifies this
      ensures Valid() && Account() == After(old(Account()), Event.Confirm)
      ensures confirms != null && fresh(confirms)
    {
      confirms := new TagSet();
      waiting := {};
    }

    /**
     * Headers that do not validate are refused before anything is sent; `sent` is whether the frames
     * could then be written. A message counts exactly when both went well.
     */
    method Publish(headers: map<Bytes, Value>, sent: bool) returns (ok: bool)
      requires Valid()
      modifies this, confirms
      ensures Valid() && confirms == old(confirms)
      ensures ok <==> ValidateField(Table(headers)) && sent
      ensures Account() == if ok then After(old(Account()), Event.Publish) else old(Account())
    {
      hide Heap, ValidateField;
      if !ValidateField(Table(headers)) {
        return false;
      }
      if !sent {
        return false;
      }
      publishCounter := publishCounter + 1;
      if confirms != null {
        confirms.Push(publishCounter);
        waiting := waiting + {publishCounter};
      }
      ok := true;
    }

    method Notify(kind: Kind, tag: nat)
      modifies `acks, `nacks, `reports
      ensures Account() == old(Account()).Report(kind, [tag])
    {
      reports := reports + [tag];
      if kind.Ack? {
        acks := acks + [tag];
      } else {
        nacks := nacks + [tag];
      }
    }

    /** Pops tags until the one that is looked for comes out; the others are kept aside. */
    static method PopUntil(heap: TagSet, tag: nat) returns (found: bool, unacked: seq<nat>)
      requires Heap(heap.tags)
      modifies heap
      ensures Heap(heap.tags) && (found <==> tag in old(heap.tags))
      ensures found ==> multiset(old(heap.tags)) == multiset(heap.tags) + multiset(unacked) + multiset{tag}
    {
      hide Heap;
      found, unacked := false, [];
      while heap.tags != []
        invariant Heap(heap.tags) && tag !in unacked
        invariant multiset(heap.tags) + multiset(unacked) == multiset(old(heap.tags))
        decreases |heap.tags|
      {
        var next := heap.Pop();
        if next == tag {
          found := true;
          Together(old(heap.tags), heap.tags, unacked + [next], tag);
          return;
        }
        unacked := unacked + [next];
      }
      Together(old(heap.tags), heap.tags, unacked, tag);
    }

    static method PushBack(heap: TagSet, unacked: seq<nat>)
      requires Heap(heap.tags)
      modifies heap
      ensures Heap(heap.tags) && multiset(heap.tags) == multiset(old(heap.tags)) + multiset(unacked)
    {
      hide Heap;
      for i := 0 to |unacked|
        invariant Heap(heap.tags) && multiset(heap.tags) == multiset(old(heap.tags)) + multiset(unacked[..i])
      {
        assert unacked[..i + 1] == unacked[..i] + [unacked[i]];
        heap.Push(unacked[i]);
      }
      assert unacked[..|unacked|] == unacked;
    }

    /**
     * Pops until the tag turns up and pushes back what came before it. For a tag that does not wait the
     * heap runs empty and the program crashes: `ok` is false.
     */
    method ConfirmOne(kind: Kind, tag: nat) returns (ok: bool)
      requires Valid()
      modifies this, confirms
      ensures ok <==> Legal(old(Account()), One(kind, tag))
      ensures ok ==> Valid() && confirms == old(confirms) && Account() == After(old(Account()), One(kind, tag))
      ensures ok ==> acks == old(acks) + if confirms != null && kind == Ack then [tag] else []
      ensures ok ==> nacks == old(nacks) + if confirms != null && kind == Nack then [tag] else []
    {
      if confirms == null {
        return true;
      }
      hide Heap;
      Members(confirms.tags, waiting, tag);
      var unacked;
      ok, unacked := PopUntil(confirms, tag);
      if !ok {
        return;
      }
      Notify(kind, tag);
      PushBack(confirms, unacked);
      OneGone(confirms.tags, waiting, tag);
      waiting := waiting - {tag};
    }

    /** Pops and reports until the tag itself comes out, or the heap runs empty and the program crashes. */
    method ConfirmMultiple(kind: Kind, tag: nat) returns (ok: bool)
      requires Valid()
      modifies this, confirms
      ensures ok <==> Legal(old(Account()), Multiple(kind, tag))
      ensures ok ==> Valid() && confirms == old(confirms) && Account() == After(old(Account()), Multiple(kind, tag))
    {
      if confirms == null {
        return true;
      }
      hide Heap, Below, From, After, Legal, Ledger.Report, Ledger.Log;
      MultipleIs(Account(), kind, tag);
      var heap := confirms;
      ghost var start, from: nat := waiting, 0;
      ghost var account := Account();
      NothingBelow(start);
      NothingReported(account, kind);
      while heap.tags != []
        invariant confirms == heap && Heap(heap.tags) && multiset(heap.tags) == multiset(waiting)
        invariant waiting == From(start, from) <= start && (tag in start ==> from <= tag)
        invariant Account() == account.(waiting := waiting).Report(kind, Below(start, from))
        decreases |heap.tags|
      {
        ghost var before, w := heap.tags, waiting;
        var next := heap.Pop();
        NextBelow(start, from, next, before, heap.tags, waiting);
        Notify(kind, next);
        waiting := waiting - {next};
        ReportedOneMore(account, kind, Below(start, from), next, w, waiting);
        from := next + 1;
        if next == tag {
          return true;
        }
      }
      Members(heap.tags, waiting, tag);
      StillThere(start, from, tag);
      ok := false;
    }

    /** An ack or a nack off the wire: each kind has listeners of its own. */
    method Dispatch(kind: Kind, tag: nat, multiple: bool) returns (ok: bool)
      requires Valid()
      modifies this, confirms
      ensures ok <==> old(confirms) == null || tag in old(waiting)
      ensures ok ==> Valid() && confirms == old(confirms)
      ensures ok ==> Account() == After(old(Account()), if multiple then Multiple(kind, tag) else One(kind, tag))
      ensures ok && kind == Ack ==> nacks == old(nacks)
      ensures ok && kind == Nack ==> acks == old(acks)
      ensures ok && confirms != null && !multiple && kind == Ack ==> acks == old(acks) + [tag]
      ensures ok && confirms != null && !multiple && kind == Nack ==> nacks == old(nacks) + [tag]
    {
      hide Heap, Below, From;
      OtherKindHearsNothing(Account(), if multiple then Multiple(kind, tag) else One(kind, tag));
      if multiple {
        ok := ConfirmMultiple(kind, tag);
      } else {
        ok := ConfirmOne(kind, tag);
      }
    }
  }

  lemma MultipleIs(l: Ledger, kind: Kind, tag: nat)
    requires l.confirming
    ensures Legal(l, Multiple(kind, tag)) <==> tag in l.waiting
    ensures After(l, Multiple(kind, tag)) ==
            l.(waiting := From(l.waiting, tag + 1)).Report(kind, Below(l.waiting, tag + 1))
  {}

  lemma StillThere(s: set<nat>, n: nat, t: nat)
    ensures t in From(s, n) <==> t in s && t >= n
  {}

  lemma NothingReported(l: Ledger, kind: Kind)
    ensures l.(waiting := l.waiting).Report(kind, []) == l
  {
    assert l.acks + [] == l.acks && l.nacks + [] == l.nacks && l.reports + [] == l.reports;
  }

  lemma ReportedOneMore(l: Ledger, kind: Kind, tags: seq<nat>, tag: nat, w: set<nat>, v: set<nat>)
    ensures l.(waiting := w).Report(kind, tags).Report(kind, [tag]).(waiting := v) ==
            l.(waiting := v).Report(kind, tags + [tag])
  {
    assert l.Log(kind) + tags + [tag] == l.Log(kind) + (tags + [tag]);
    assert l.reports + tags + [tag] == l.reports + (tags + [tag]);
  }

  lemma NothingBelow(s: set<nat>)
    ensures Below(s, 0) == [] && From(s, 0) == s
  {}

  lemma Members(tags: seq<nat>, s: set<nat>, t: nat)
    requires multiset(tags) == multiset(s)
    ensures t in tags <==> t in s
  {
    assert t in multiset(tags) <==> t in multiset(s);
  }

  lemma Together(all: seq<nat>, a: seq<nat>, b: seq<nat>, t: nat)
    requires multiset(a) + multiset(b) == multiset(all)
    ensures t in all <==> t in a || t in b
  {
    assert t in multiset(all) <==> t in multiset(a) || t in multiset(b);
  }

  lemma OneGone(tags: seq<nat>, s: set<nat>, t: nat)
    requires t in s && multiset(s) == multiset(tags) + multiset{t}
    ensures multiset(tags) == multiset(s - {t})
  {
    assert multiset(s - {t}) == multiset(s) - multiset{t};
  }

  lemma NextBelow(start: set<nat>, from: nat, next: nat, before: seq<nat>, after: seq<nat>, waiting: set<nat>)
    requires waiting == From(start, from) && multiset(before) == multiset(waiting)
    requires next in before && multiset(after) == multiset(before) - multiset{next}
    requires forall t :: t in before ==> next <= t
    ensures next in start && next >= from && Below(start, next + 1) == Below(start, from) + [next]
    ensures forall t :: t in start && from <= t ==> next <= t
    ensures multiset(after) == multiset(waiting - {next}) && waiting - {next} == From(start, next + 1)
  {
    Members(before, waiting, next);
    OneGone(after, waiting, next);
    forall t | from <= t < next ensures t !in start {
      Members(before, waiting, t);
    }
    BelowSkips(start, from, next);
    forall t | t in start && from <= t ensures next <= t {
      Members(before, waiting, t);
    }
  }

  // ---------------------------------------------------------------- whole runs

  function Play(l: Ledger, es: seq<Event>): Ledger
    decreases |es|
  {
    if es == [] then l else Play(After(l, es[0]), es[1..])
  }

  predicate AllLegal(l: Ledger, es: seq<Event>)
    decreases |es|
  {
    es == [] || (Legal(l, es[0]) && AllLegal(After(l, es[0]), es[1..]))
  }

  /** Confirms are turned on once, before anything else; `es` is what happens then. */
  predicate InMode(es: seq<Event>) {
    forall e :: e in es ==> !e.Confirm?
  }

  /** Each tag ever published waits, or was reported once, as acked or as nacked. */
  ghost predicate Accounted(l: Ledger) {
    && l.confirming
    && (forall t :: t in l.waiting || t in l.acks || t in l.nacks <==> 1 <= t <= l.published)
    && (forall t :: t in l.waiting ==> t !in l.acks && t !in l.nacks)
    && (forall t :: t in l.acks ==> t !in l.nacks)
    && (forall t :: t in l.reports <==> t in l.acks || t in l.nacks)
    && NoRepeats(l.acks) && NoRepeats(l.nacks) && NoRepeats(l.reports)
  }

  predicate NoRepeats(s: seq<nat>) {
    forall i, j :: 0 <= i < j < |s| ==> s[i] != s[j]
  }

  lemma NoRepeatsTogether(a: seq<nat>, b: seq<nat>)
    requires NoRepeats(a) && NoRepeats(b) && forall t :: t in b ==> t !in a
    ensures NoRepeats(a + b)
  {
    forall i, j | 0 <= i < j < |a + b| ensures (a + b)[i] != (a + b)[j] {
      assert i < |a| ==> a[i] in a;
      assert j >= |a| ==> b[j - |a|] in b;
    }
  }

  lemma ReportKeepsAccounted(l: Ledger, kind: Kind, w: set<nat>, tags: seq<nat>)
    requires Accounted(l) && w <= l.waiting && NoRepeats(tags)
    requires forall t :: t in tags <==> t in l.waiting && t !in w
    ensures Accounted(l.(waiting := w).Report(kind, tags))
  {
    hide NoRepeats;
    NoRepeatsTogether(l.Log(kind), tags);
    NoRepeatsTogether(l.reports, tags);
    var r := l.(waiting := w).Report(kind, tags);
    assert forall t :: t in r.Log(kind) <==> t in l.Log(kind) || t in tags;
    assert forall t :: t in r.reports <==> t in l.reports || t in tags;
  }

  lemma StepKeepsAccounted(l: Ledger, e: Event)
    requires Accounted(l) && Legal(l, e) && !e.Confirm?
    ensures Accounted(After(l, e))
  {
    hide NoRepeats, Accounted, Below, Ledger.Report;
    match e
    case Publish =>
      PublishKeepsAccounted(l);
    case One(kind, tag) =>
      OneTag(tag);
      ReportKeepsAccounted(l, kind, l.waiting - {tag}, [tag]) by { Confirming(l); }
      Confirming(l);
    case Multiple(kind, tag) =>
      Confirming(l);
      BelowIsAscending(l.waiting, tag + 1);
      AscendingHasNoRepeats(Below(l.waiting, tag + 1));
      ReportKeepsAccounted(l, kind, From(l.waiting, tag + 1), Below(l.waiting, tag + 1));
  }

  lemma PublishKeepsAccounted(l: Ledger)
    requires Accounted(l)
    ensures Accounted(After(l, Event.Publish))
  {
    hide NoRepeats;
  }

  lemma Confirming(l: Ledger)
    requires Accounted(l)
    ensures l.confirming
  {}

  lemma OneTag(tag: nat)
    ensures NoRepeats([tag])
  {}

  lemma AscendingHasNoRepeats(s: seq<nat>)
    requires forall i, j :: 0 <= i < j < |s| ==> s[i] < s[j]
    ensures NoRepeats(s)
  {}

  /**
   * In confirm mode from the start, whatever publishes and confirms come in whatever order: what waits
   * is what was published and not reported, and no tag is reported twice.
   */
  lemma {:induction false} EveryRunIsAccounted(l: Ledger, es: seq<Event>)
    requires Accounted(l) && AllLegal(l, es) && InMode(es)
    ensures Accounted(Play(l, es))
    decreases |es|
  {
    hide Accounted, After, Legal;
    if es != [] {
      StepKeepsAccounted(l, es[0]);
      EveryRunIsAccounted(After(l, es[0]), es[1..]);
    }
  }

  lemma StartsAccounted()
    ensures Accounted(After(NEW, Event.Confirm))
  {}

  /** A confirm for several reports exactly what waits up to its tag, ascending. */
  lemma MultipleReportsUpTo(l: Ledger, kind: Kind, tag: nat)
    requires l.confirming
    ensures var r := After(l, Multiple(kind, tag));
            exists tags :: r.Log(kind) == l.Log(kind) + tags
              && (forall t :: t in tags <==> t in l.waiting && t <= tag)
              && (forall i, j :: 0 <= i < j < |tags| ==> tags[i] < tags[j])
              && (forall t :: t in r.waiting <==> t in l.waiting && t > tag)
  {
    BelowIsAscending(l.waiting, tag + 1);
    var r, tags := After(l, Multiple(kind, tag)), Below(l.waiting, tag + 1);
    assert r.Log(kind) == l.Log(kind) + tags;
    assert forall t :: t in tags <==> t in l.waiting && t <= tag;
  }

  // ---------------------------------------------------------------- who hears of a confirm

  /** In the state it finds, the event tells the listeners of a kind about a tag. */
  predicate Tells(l: Ledger, e: Event, kind: Kind, t: nat) {
    match e
    case One(k, tag) => l.confirming && k == kind && t == tag
    case Multiple(k, tag) => l.confirming && k == kind && t <= tag && t in l.waiting
    case _ => false
  }

  ghost predicate Told(l: Ledger, es: seq<Event>, kind: Kind, t: nat) {
    exists k :: 0 <= k < |es| && Tells(Play(l, es[..k]), es[k], kind, t)
  }

  /** One event adds to the two logs, `acks` for acks and `nacks` for nacks, just what it tells. */
  lemma {:induction false} EventTells(l: Ledger, e: Event, t: nat)
    ensures t in After(l, e).acks <==> t in l.acks || Tells(l, e, Ack, t)
    ensures t in After(l, e).nacks <==> t in l.nacks || Tells(l, e, Nack, t)
    ensures t in After(l, e).reports <==> t in l.reports || Tells(l, e, Ack, t) || Tells(l, e, Nack, t)
  {
    if e.Multiple? {
      BelowIsAscending(l.waiting, e.tag + 1);
    }
  }

  lemma {:induction false} ToldFirst(l: Ledger, es: seq<Event>, kind: Kind, t: nat)
    requires es != []
    ensures Told(l, es, kind, t) <==> Tells(l, es[0], kind, t) || Told(After(l, es[0]), es[1..], kind, t)
  {
    hide After, Tells;
    var next, rest := After(l, es[0]), es[1..];
    assert es[..0] == [] && Play(l, []) == l;
    forall k | 0 <= k < |rest| ensures Play(l, es[..k + 1]) == Play(next, rest[..k]) {
      assert es[..k + 1][0] == es[0] && es[..k + 1][1..] == rest[..k];
    }
    if Told(l, es, kind, t) {
      var k :| 0 <= k < |es| && Tells(Play(l, es[..k]), es[k], kind, t);
      if k > 0 {
        assert Tells(Play(next, rest[..k - 1]), rest[k - 1], kind, t);
      }
    }
    if Tells(l, es[0], kind, t) {
      assert Tells(Play(l, es[..0]), es[0], kind, t);
    }
    if Told(next, rest, kind, t) {
      var k :| 0 <= k < |rest| && Tells(Play(next, rest[..k]), rest[k], kind, t);
      assert Tells(Play(l, es[..k + 1]), es[k + 1], kind, t);
    }
  }

  /**
   * Over any run: the listeners for acks heard of a tag if and only if an ack was for it, alone or among
   * those waiting up to the tag that came; and those for nacks likewise.
   */
  lemma {:induction false} HeardFromItsKind(l: Ledger, es: seq<Event>, t: nat)
    ensures t in Play(l, es).acks <==> t in l.acks || Told(l, es, Ack, t)
    ensures t in Play(l, es).nacks <==> t in l.nacks || Told(l, es, Nack, t)
    decreases |es|
  {
    hide After, Tells, Told;
    if es == [] {
      NobodyTold(l, t);
    } else {
      EventTells(l, es[0], t);
      ToldFirst(l, es, Ack, t);
      ToldFirst(l, es, Nack, t);
      HeardFromItsKind(After(l, es[0]), es[1..], t);
    }
  }

  lemma NobodyTold(l: Ledger, t: nat)
    ensures !Told(l, [], Ack, t) && !Told(l, [], Nack, t)
  {}

  /** Several at once: what one kind hears the other does not. */
  lemma OtherKindHearsNothing(l: Ledger, e: Event)
    requires e.One? || e.Multiple?
    ensures e.kind == Ack ==> After(l, e).nacks == l.nacks
    ensures e.kind == Nack ==> After(l, e).acks == l.acks
    ensures l.confirming && e == One(Ack, e.tag) ==> After(l, e).acks == l.acks + [e.tag]
    ensures l.confirming && e == One(Nack, e.tag) ==> After(l, e).nacks == l.nacks + [e.tag]
  {
    hide Below, From;
  }

  // ---------------------------------------------------------------- turning confirms on late

  function Publishes(n: nat): (es: seq<Event>)
    ensures |es| == n && forall e :: e in es ==> e == Event.Publish
  {
    if n == 0 then [] else [Event.Publish] + Publishes(n - 1)
  }

  lemma {:induction false} AfterPublishes(l: Ledger, n: nat)
    ensures Play(l, Publishes(n)).confirming == l.confirming
    ensures Play(l, Publishes(n)).published == l.published + n
    ensures forall t :: t in Play(l, Publishes(n)).waiting <==>
              t in l.waiting || (l.confirming && l.published < t <= l.published + n)
    decreases n
  {
    if n > 0 {
      AfterPublishes(After(l, Event.Publish), n - 1);
      assert Publishes(n)[1..] == Publishes(n - 1);
    }
  }

  /** A channel that published `k` messages, then turned confirms on, then published `n` more. */
  function TurnedOnLate(k: nat, n: nat): Ledger {
    Play(After(Play(NEW, Publishes(k)), Event.Confirm), Publishes(n))
  }

  /**
   * The server numbers publishings from 1 when confirms are turned on; the channel goes on counting.
   * The numbers agree exactly if nothing was published before.
   */
  lemma {:induction false} NumbersAgree(k: nat, n: nat)
    requires n > 0
    ensures (forall t :: 1 <= t <= n <==> t in TurnedOnLate(k, n).waiting) <==> k == 0
    ensures Legal(TurnedOnLate(k, n), One(Ack, 1)) <==> k == 0
  {
    AfterPublishes(NEW, k);
    var l := After(Play(NEW, Publishes(k)), Event.Confirm);
    AfterPublishes(l, n);
    assert forall t :: t in TurnedOnLate(k, n).waiting <==> k < t <= k + n;
    assert k > 0 ==> 1 !in TurnedOnLate(k, n).waiting;
    assert 1 <= 1 <= n;
  }

  // ---------------------------------------------------------------- the order of reports

  /** Exactly 1, 2, 3 and so on. */
  predicate InOrder(s: seq<nat>) {
    forall i :: 0 <= i < |s| ==> s[i] == i + 1
  }

  /** A single confirm that names the least waiting tag; anything else is fine. */
  predicate Least(l: Ledger, e: Event) {
    e.One? ==> Below(l.waiting, e.tag) == []
  }

  /** What was reported is 1 to m, and what waits is all that was published after that. */
  ghost predicate Sequential(l: Ledger) {
    && l.confirming && InOrder(l.reports) && |l.reports| <= l.published
    && forall t :: t in l.waiting <==> |l.reports| < t <= l.published
  }

  lemma {:induction false} BelowInterval(s: set<nat>, m: nat, n: nat)
    requires forall t :: t < n ==> (t in s <==> m < t)
    ensures |Below(s, n)| == if n > m + 1 then n - m - 1 else 0
    ensures forall i :: 0 <= i < |Below(s, n)| ==> Below(s, n)[i] == m + 1 + i
  {
    if n > 0 {
      BelowInterval(s, m, n - 1);
    }
  }

  /** In sequence, the least waiting tag is the next one. */
  lemma LeastIsNext(l: Ledger, tag: nat)
    requires Sequential(l) && tag in l.waiting
    ensures Below(l.waiting, tag) == [] <==> tag == |l.reports| + 1
  {
    BelowInterval(l.waiting, |l.reports|, tag);
  }

  lemma OrderAfterPublish(l: Ledger)
    requires Sequential(l)
    ensures Sequential(After(l, Event.Publish))
  {
    var r := After(l, Event.Publish);
    forall t ensures t in r.waiting <==> |r.reports| < t <= r.published {
      assert t in r.waiting <==> t in l.waiting || t == l.published + 1;
    }
  }

  lemma OrderAfterOne(l: Ledger, kind: Kind, tag: nat)
    requires Sequential(l) && tag in l.waiting
    ensures tag == |l.reports| + 1 ==> Sequential(After(l, One(kind, tag)))
    ensures tag != |l.reports| + 1 ==> !InOrder(After(l, One(kind, tag)).reports)
  {
    var r := After(l, One(kind, tag)).reports;
    assert r == l.reports + [tag] && r[|l.reports|] == tag;
  }

  lemma OrderAfterMultiple(l: Ledger, kind: Kind, tag: nat)
    requires Sequential(l) && tag in l.waiting
    ensures Sequential(After(l, Multiple(kind, tag)))
  {
    BelowInterval(l.waiting, |l.reports|, tag + 1);
    var b := Below(l.waiting, tag + 1);
    hide Below;
    assert After(l, Multiple(kind, tag)).reports == l.reports + b;
  }

  /** One legal step from a sequential state stays in sequence exactly if it is not a single confirm out of turn. */
  lemma OrderStep(l: Ledger, e: Event)
    requires Sequential(l) && Legal(l, e) && !e.Confirm?
    ensures Least(l, e) ==> Sequential(After(l, e))
    ensures !Least(l, e) ==> !InOrder(After(l, e).reports)
  {
    hide Below;
    match e
    case Publish =>
      OrderAfterPublish(l);
    case One(kind, tag) =>
      LeastIsNext(l, tag);
      OrderAfterOne(l, kind, tag);
    case Multiple(kind, tag) =>
      OrderAfterMultiple(l, kind, tag);
  }

  lemma {:induction false} ReportsGrow(l: Ledger, es: seq<Event>)
    ensures l.reports <= Play(l, es).reports
    decreases |es|
  {
    hide Below, From;
    if es != [] {
      ReportsGrow(After(l, es[0]), es[1..]);
    }
  }

  predicate AllLeast(l: Ledger, es: seq<Event>)
    decreases |es|
  {
    es == [] || (Least(l, es[0]) && AllLeast(After(l, es[0]), es[1..]))
  }

  lemma {:induction false} OrderOfRun(l: Ledger, es: seq<Event>)
    requires Sequential(l) && AllLegal(l, es) && InMode(es)
    ensures InOrder(Play(l, es).reports) <==> AllLeast(l, es)
    decreases |es|
  {
    hide After, Legal, Least, Sequential, InOrder;
    if es == [] {
      Ordered(l);
    } else {
      var next := After(l, es[0]);
      OrderStep(l, es[0]);
      if Least(l, es[0]) {
        OrderOfRun(next, es[1..]);
      } else {
        ReportsGrow(next, es[1..]);
        if InOrder(Play(next, es[1..]).reports) {
          PrefixInOrder(next.reports, Play(next, es[1..]).reports);
        }
      }
    }
  }

  lemma Ordered(l: Ledger)
    requires Sequential(l)
    ensures InOrder(l.reports)
  {}

  lemma PrefixInOrder(s: seq<nat>, t: seq<nat>)
    requires s <= t && InOrder(t)
    ensures InOrder(s)
  {}

  lemma {:induction false} LeastAtEach(l: Ledger, es: seq<Event>)
    ensures AllLeast(l, es) <==> forall k :: 0 <= k < |es| ==> Least(Play(l, es[..k]), es[k])
    decreases |es|
  {
    hide After, Least;
    if es != [] {
      var next, rest := After(l, es[0]), es[1..];
      LeastAtEach(next, rest);
      forall k | 0 <= k < |es|
        ensures Play(l, es[..k]) == if k == 0 then l else Play(next, rest[..k - 1])
      {
        if k > 0 {
          assert es[..k][0] == es[0] && es[..k][1..] == rest[..k - 1];
        }
      }
      if forall k :: 0 <= k < |es| ==> Least(Play(l, es[..k]), es[k]) {
        forall k | 0 <= k < |rest| ensures Least(Play(next, rest[..k]), rest[k]) {
          assert Least(Play(l, es[..k + 1]), es[k + 1]);
        }
      }
    }
  }

  /**
   * Confirms are reported in the order of publishing, acks and nacks together, after every prefix of a
   * run exactly 1, 2, 3 and so on, if and only if each single confirm names the least tag that waits.
   */
  lemma {:induction false} ReportedInOrder(es: seq<Event>)
    requires AllLegal(After(NEW, Event.Confirm), es) && InMode(es)
    ensures InOrder(Play(After(NEW, Event.Confirm), es).reports) <==>
            forall k :: 0 <= k < |es| && es[k].One? ==> Below(Play(After(NEW, Event.Confirm), es[..k]).waiting, es[k].tag) == []
    ensures InOrder(Play(After(NEW, Event.Confirm), es).reports) <==>
            forall k :: 0 <= k <= |es| ==> InOrder(Play(After(NEW, Event.Confirm), es[..k]).reports)
  {
    var l := After(NEW, Event.Confirm);
    assert Sequential(l);
    OrderOfRun(l, es);
    LeastAtEach(l, es);
    hide Play, InOrder, AllLeast;
    forall k | 0 <= k <= |es| ensures InOrder(Play(l, es).reports) ==> InOrder(Play(l, es[..k]).reports) {
      PlayGrows(l, es, k);
      if InOrder(Play(l, es).reports) {
        PrefixInOrder(Play(l, es[..k]).reports, Play(l, es).reports);
      }
    }
    assert es[..|es|] == es;
  }

  lemma {:induction false} PlayGrows(l: Ledger, es: seq<Event>, k: nat)
    requires k <= |es|
    ensures Play(l, es[..k]).reports <= Play(l, es).reports
    decreases k
  {
    hide After;
    if k == 0 {
      ReportsGrow(l, es);
    } else {
      assert es[..k][0] == es[0] && es[..k][1..] == es[1..][..k - 1];
      PlayGrows(After(l, es[0]), es[1..], k - 1);
    }
  }

  /** Two messages confirmed one by one, the second first, are reported in that order. */
  lemma SecondReportedFirst()
    ensures var l, es := After(NEW, Event.Confirm), [Event.Publish, Event.Publish, One(Ack, 2), One(Ack, 1)];
            AllLegal(l, es) && Play(l, es).reports == [2, 1]
  {
    var l0 := After(NEW, Event.Confirm);
    var l2 := After(After(l0, Event.Publish), Event.Publish);
    assert l2.waiting == {1, 2};
    FourEvents(l0, Event.Publish, Event.Publish, One(Ack, 2), One(Ack, 1));
  }

  /** Confirms that arrive ascending do not help: a multiple one brings what a single one left behind. */
  lemma AscendingOutOfOrder()
    ensures var es := [Event.Publish, Event.Publish, Event.Publish, One(Ack, 2), Multiple(Ack, 3)];
            AllLegal(After(NEW, Event.Confirm), es) && Play(After(NEW, Event.Confirm), es).reports == [2, 1, 3]
  {
    var l0 := After(NEW, Event.Confirm);
    var l1 := After(l0, Event.Publish);
    var l3 := After(After(l1, Event.Publish), Event.Publish);
    var l4 := After(l3, One(Ack, 2));
    assert l3.waiting == {1, 2, 3} && l4.waiting == {1, 3};
    assert Below({1, 3}, 1) == [] && Below({1, 3}, 2) == [1] && Below({1, 3}, 3) == [1] && Below({1, 3}, 4) == [1, 3];
    var es := [Event.Publish, Event.Publish, Event.Publish, One(Ack, 2), Multiple(Ack, 3)];
    assert es[1..] == [Event.Publish, Event.Publish, One(Ack, 2), Multiple(Ack, 3)];
    FourEvents(l1, Event.Publish, Event.Publish, One(Ack, 2), Multiple(Ack, 3));
  }

  lemma FourEvents(l: Ledger, a: Event, b: Event, c: Event, d: Event)
    ensures Play(l, [a, b, c, d]) == After(After(After(After(l, a), b), c), d)
    ensures AllLegal(l, [a, b, c, d]) <==>
            && Legal(l, a) && Legal(After(l, a), b) && Legal(After(After(l, a), b), c)
            && Legal(After(After(After(l, a), b), c), d)
  {
    var l1 := After(l, a);
    var l2 := After(l1, b);
    var l3 := After(l2, c);
    hide After, Legal, Play, AllLegal;
    OneEvent(l, a, [b, c, d]);
    OneEvent(l1, b, [c, d]);
    OneEvent(l2, c, [d]);
    OneEvent(l3, d, []);
    NoEvent(After(l3, d));
    assert [a] + [b, c, d] == [a, b, c, d] && [b] + [c, d] == [b, c, d] && [c] + [d] == [c, d] && [d] + [] == [d];
  }

  lemma OneEvent(l: Ledger, e: Event, es: seq<Event>)
    ensures Play(l, [e] + es) == Play(After(l, e), es)
    ensures AllLegal(l, [e] + es) <==> Legal(l, e) && AllLegal(After(l, e), es)
  {
    hide After, Legal;
    assert ([e] + es)[0] == e && ([e] + es)[1..] == es;
  }

  lemma NoEvent(l: Ledger)
    ensures Play(l, []) == l && AllLegal(l, [])
  {}

  function Singles(kind: Kind, tags: seq<nat>): seq<Event> {
    if tags == [] then [] else [One(kind, tags[0])] + Singles(kind, tags[1..])
  }

  lemma OneReports(l: Ledger, kind: Kind, tag: nat)
    requires l.confirming
    ensures After(l, One(kind, tag)).confirming && After(l, One(kind, tag)).reports == l.reports + [tag]
  {}

  /** Single confirms are reported in the order they come. */
  lemma {:induction false} SinglesKeepTheirOrder(l: Ledger, kind: Kind, tags: seq<nat>)
    requires l.confirming && AllLegal(l, Singles(kind, tags))
    ensures Play(l, Singles(kind, tags)).reports == l.reports + tags
    decreases |tags|
  {
    hide After, Legal;
    if tags == [] {
      assert l.reports + tags == l.reports;
    } else {
      var es, next := Singles(kind, tags), After(l, One(kind, tags[0]));
      OneReports(l, kind, tags[0]);
      assert es[0] == One(kind, tags[0]) && es[1..] == Singles(kind, tags[1..]);
      assert Play(l, es) == Play(next, es[1..]);
      SinglesKeepTheirOrder(next, kind, tags[1..]);
      assert l.reports + [tags[0]] + tags[1..] == l.reports + tags;
    }
  }
}
