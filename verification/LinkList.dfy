/** The sentinel-headed list of pipe/linkList.c, edited in place. The ghost argument
    `ns` of each method is the sequence of data nodes behind the sentinel `H`.
    No method writes a `data` field of a node it is given: the `modifies` clauses
    name `next` only. */
module LinkList {

  class Node {
    var data: int
    var next: Node?

    constructor (data: int)
      ensures this.data == data && next == null
    {
      this.data, this.next := data, null;
    }
  }

  function At(ns: seq<Node>, i: int): Node? {
    if 0 <= i < |ns| then ns[i] else null
  }

  ghost predicate Distinct(ns: seq<Node>) {
    forall i, j | 0 <= i < j < |ns| :: ns[i] != ns[j]
  }

  /** Distinct nodes, each pointing to the following one and the last to nothing. */
  ghost predicate Linked(ns: seq<Node>)
    reads ns
  {
    && Distinct(ns)
    && (forall i | 0 <= i < |ns| :: ns[i].next == At(ns, i + 1))
  }

  /** The list behind sentinel `H` has exactly the data nodes `ns`. */
  ghost predicate IsList(H: Node, ns: seq<Node>)
    reads H, ns
  {
    Linked([H] + ns)
  }

  /** The same, with the sentinel apart. */
  lemma ListParts(H: Node, ns: seq<Node>)
    ensures IsList(H, ns) <==> H !in ns && H.next == At(ns, 0) && Linked(ns)
  {
    var all := [H] + ns;
    if IsList(H, ns) {
      assert all[0].next == At(all, 1);
      forall j | 0 <= j < |ns|
        ensures ns[j] == all[j + 1] && ns[j].next == At(ns, j + 1)
      {
      }
    }
  }

  ghost function Cells(H: Node?, ns: seq<Node>): set<Node> {
    (if H == null then {} else {H}) + set n | n in ns
  }

  // ---------------------------------------------------------------- positions

  method ListGetBefore(H: Node?, pos: int, ghost ns: seq<Node>) returns (r: Node?)
    requires H != null ==> IsList(H, ns)
    ensures H == null ==> r == null
    ensures H != null ==> r == if pos <= -1 then H else if pos < |ns| then ns[pos] else null
  {
    if H == null {
      return null;
    }
    if pos == -1 {
      return H;
    }
    var i := -1;
    var P := H;
    while i < pos
      invariant i == -1 || i <= pos
      invariant -1 <= i < |ns| && P == ([H] + ns)[i + 1]
      decreases pos - i
    {
      var next := P.next;
      if next == null {
        return null;
      }
      P := next;
      i := i + 1;
    }
    return P;
  }

  /** 0 means empty here, and 1 not. */
  method ListEmpty(H: Node?, ghost ns: seq<Node>) returns (r: int)
    requires H != null ==> IsList(H, ns)
    ensures r == if H == null || ns == [] then 0 else 1
  {
    if H == null {
      return 0;
    }
    assert ([H] + ns)[0].next == At([H] + ns, 1);
    if H.next == null {
      return 0;
    }
    return 1;
  }

  // ---------------------------------------------------------------- insertion

  lemma LinkedInsert(all: seq<Node>, k: nat, q: Node)
    requires k < |all| && Distinct(all) && q !in all
    requires all[k].next == q && q.next == At(all, k + 1)
    requires forall i | 0 <= i < |all| && i != k :: all[i].next == At(all, i + 1)
    ensures Linked(all[..k + 1] + [q] + all[k + 1..])
  {
    var m := all[..k + 1] + [q] + all[k + 1..];
    forall i | 0 <= i < |m|
      ensures m[i].next == At(m, i + 1)
    {
      if i <= k {
        assert m[i] == all[i];
      } else if i > k + 1 {
        assert m[i] == all[i - 1];
      }
    }
  }

  lemma LinkedRemove(all: seq<Node>, k: nat)
    requires k + 1 < |all| && Distinct(all)
    requires all[k].next == At(all, k + 2)
    requires forall i | 0 <= i < |all| && i != k :: all[i].next == At(all, i + 1)
    ensures Linked(all[..k + 1] + all[k + 2..])
  {
    var m := all[..k + 1] + all[k + 2..];
    forall i | 0 <= i < |m|
      ensures m[i].next == At(m, i + 1)
    {
      assert m[i] == if i <= k then all[i] else all[i + 1];
    }
  }

  lemma ListInserted(H: Node, ns: seq<Node>, k: nat, q: Node)
    requires k <= |ns| && var all := [H] + ns;
      && Distinct(all) && q !in all && all[k].next == q && q.next == At(all, k + 1)
      && forall i | 0 <= i < |all| && i != k :: all[i].next == At(all, i + 1)
    ensures IsList(H, ns[..k] + [q] + ns[k..])
  {
    var all := [H] + ns;
    LinkedInsert(all, k, q);
    assert [H] + (ns[..k] + [q] + ns[k..]) == all[..k + 1] + [q] + all[k + 1..];
  }

  lemma ListRemoved(H: Node, ns: seq<Node>, k: nat)
    requires k < |ns| && var all := [H] + ns;
      && Distinct(all) && all[k].next == At(all, k + 2)
      && forall i | 0 <= i < |all| && i != k :: all[i].next == At(all, i + 1)
    ensures IsList(H, ns[..k] + ns[k + 1..])
  {
    var all := [H] + ns;
    LinkedRemove(all, k);
    assert [H] + (ns[..k] + ns[k + 1..]) == all[..k + 1] + all[k + 2..];
  }

  lemma InsertedFirst(ns: seq<Node>, q: Node)
    ensures ns[..0] + [q] + ns[0..] == [q] + ns
  {
  }

  /** `mallocOk` is the answer of malloc. */
  method ListInsert(H: Node?, value: int, pos: int, mallocOk: bool, ghost ns: seq<Node>)
      returns (r: int, ghost q: Node?)
    requires H != null ==> IsList(H, ns)
    modifies Cells(H, ns)`next
    ensures r == if H != null && pos <= |ns| && mallocOk then 0 else -1
    ensures r == -1 && H != null ==> IsList(H, ns)
    ensures r == 0 ==> q != null && fresh(q) && q.data == value
    ensures r == 0 && pos < 0 ==> IsList(H, [q] + ns)
    ensures r == 0 && 0 <= pos ==> IsList(H, ns[..pos] + [q] + ns[pos..])
  {
    q := null;
    if H == null {
      return -1, null;
    }
    var P := ListGetBefore(H, pos - 1, ns);
    if P == null {
      return -1, null;
    }
    if !mallocOk {
      return -1, null;
    }
    ghost var all := [H] + ns;
    ghost var k := if pos < 0 then 0 else pos;
    assert P == all[k] && P.next == At(all, k + 1) && P in Cells(H, ns);
    var node := new Node(0);
    node.data := value;
    node.next := P.next;
    P.next := node;
    ListInserted(H, ns, k, node);
    InsertedFirst(ns, node);
    return 0, node;
  }

  method ListTailInsert(H: Node?, value: int, mallocOk: bool, ghost ns: seq<Node>) returns (r: int, ghost q: Node?)
    requires H != null ==> IsList(H, ns)
    modifies Cells(H, ns)`next
    ensures r == if H != null && mallocOk then 0 else -1
    ensures r == -1 && H != null ==> IsList(H, ns)
    ensures r == 0 ==> q != null && fresh(q) && q.data == value && IsList(H, ns + [q])
  {
    q := null;
    if H == null {
      return -1, null;
    }
    if !mallocOk {
      return -1, null;
    }
    var node := new Node(0);
    node.data := value;
    node.next := null;
    ghost var all := [H] + ns;
    ghost var i := 0;
    var last := H;
    while last.next != null
      invariant 0 <= i < |all| && last == all[i]
      decreases |all| - i
    {
      last := last.next;
      i := i + 1;
    }
    last.next := node;
    assert [H] + (ns + [node]) == all + [node];
    return 0, node;
  }

  // ----------------------------------------------------------------- deletion

  /** Unlinks the node `freed` at `pos`, which the C code then frees. */
  method ListDelete(H: Node?, pos: int, ghost ns: seq<Node>) returns (r: int, ghost freed: Node?)
    requires H != null ==> IsList(H, ns)
    modifies Cells(H, ns)`next
    ensures r == if H != null && ns != [] && pos < |ns| then 0 else -1
    ensures r == -1 && H != null ==> IsList(H, ns)
    ensures r == 0 && pos < 0 ==> freed == ns[0] && IsList(H, ns[1..])
    ensures r == 0 && 0 <= pos ==> freed == ns[pos] && IsList(H, ns[..pos] + ns[pos + 1..])
  {
    freed := null;
    if H == null {
      return -1, null;
    }
    var P := ListGetBefore(H, pos - 1, ns);
    if P == null {
      return -1, null;
    }
    ghost var all := [H] + ns;
    ghost var k := if pos < 0 then 0 else pos;
    assert P == all[k] && P.next == At(all, k + 1);
    if P.next == null {
      return -1, null;
    }
    var Q := P.next;
    P.next := Q.next;
    ListRemoved(H, ns, k);
    assert k == 0 ==> ns[..k] + ns[k + 1..] == ns[1..];
    return 0, Q;
  }

  /** Unlinks and returns the last node. */
  method ListPoo(H: Node?, ghost ns: seq<Node>) returns (r: Node?)
    requires H != null ==> IsList(H, ns)
    modifies Cells(H, ns)`next
    ensures H == null || ns == [] ==> r == null
    ensures H != null && ns == [] ==> IsList(H, ns)
    ensures H != null && ns != [] ==> r == ns[|ns| - 1] && r.next == null && IsList(H, ns[..|ns| - 1])
  {
    if H == null {
      return null;
    }
    ghost var all := [H] + ns;
    ghost var i := 0;
    var P := H;
    while P.next != null
      invariant 0 <= i < |all| && P == all[i] && IsList(H, ns)
      invariant i == 0 || i + 1 < |all|
      decreases |all| - i
    {
      var ret := P;
      P := P.next;
      i := i + 1;
      if P.next == null {
        ret.next := null;
        assert [H] + ns[..|ns| - 1] == all[..|ns|];
        return P;
      }
    }
    return null;
  }

  ghost predicate Apart(xs: seq<Node>, ys: seq<Node>) {
    forall k, l | 0 <= k < |xs| && 0 <= l < |ys| :: xs[k] != ys[l]
  }

  ghost function Elems(xs: seq<Node>): set<Node> {
    set n | n in xs
  }

  /** Three sequences without a common or repeated node. */
  ghost predicate Unique(all: seq<Node>, a: seq<Node>, b: seq<Node>) {
    Distinct(all) && Distinct(a) && Distinct(b) && Apart(all, a) && Apart(all, b) && Apart(a, b)
  }

  ghost predicate Nexts(xs: seq<Node>)
    reads xs
  {
    forall k | 0 <= k < |xs| :: xs[k].next == At(xs, k + 1)
  }

  // ----------------------------------------------------------------- reversal

  function Reversed<T>(xs: seq<T>): (r: seq<T>)
    ensures |r| == |xs|
  {
    if xs == [] then [] else Reversed(xs[1..]) + [xs[0]]
  }

  lemma {:induction false} ReversedAppend<T>(xs: seq<T>, x: T)
    ensures Reversed(xs + [x]) == [x] + Reversed(xs)
  {
    if xs != [] {
      assert (xs + [x])[1..] == xs[1..] + [x];
      ReversedAppend(xs[1..], x);
    } else {
      assert [x][1..] == [];
    }
  }

  lemma {:induction false} ReversedTwice<T>(xs: seq<T>)
    ensures Reversed(Reversed(xs)) == xs
  {
    if xs != [] {
      ReversedAppend(Reversed(xs[1..]), xs[0]);
      ReversedTwice(xs[1..]);
    }
  }

  lemma {:induction false} ReversedAt<T>(xs: seq<T>, i: nat)
    requires i < |xs|
    ensures Reversed(xs)[i] == xs[|xs| - 1 - i]
  {
    if i < |xs| - 1 {
      ReversedAt(xs[1..], i);
    }
  }

  lemma ReversedStep<T>(rest: seq<T>, done: seq<T>)
    requires rest != []
    ensures Reversed(rest) + done == Reversed(rest[1..]) + ([rest[0]] + done)
  {
  }

  /** Lines 226-230: moves the first node of `rest` to the front of the list. */
  method MoveToFront(H: Node, P: Node, ghost done: seq<Node>, ghost rest: seq<Node>) returns (next: Node?)
    requires Unique([H], done, rest) && rest != [] && P == rest[0]
    requires H.next == At(done, 0) && Nexts(done) && Nexts(rest)
    modifies H`next, P`next
    ensures next == At(rest[1..], 0) && H.next == P
    ensures Nexts([P] + done) && Nexts(rest[1..])
  {
    assert P.next == At(rest, 1);
    assert H == [H][0];
    var Q := P;
    next := P.next;
    Q.next := H.next;
    H.next := Q;
  }

  method ListReverse(H: Node?, ghost ns: seq<Node>) returns (r: int)
    requires H != null ==> IsList(H, ns)
    modifies Cells(H, ns)`next
    ensures r == if H == null then -1 else 0
    ensures H != null ==> IsList(H, Reversed(ns))
  {
    if H == null {
      return -1;
    }
    ListParts(H, ns);
    if H.next == null || H.next.next == null {
      assert |ns| <= 1;
      assert Reversed(ns) == ns;
      return 0;
    }
    assert ns[0] in Cells(H, ns);
    var P := H.next.next;
    H.next.next := null;
    ghost var done, rest := [ns[0]], ns[1..];
    assert Reversed(ns) == Reversed(rest) + done;
    while P != null
      invariant P == At(rest, 0) && H.next == At(done, 0)
      invariant Unique([H], done, rest) && Nexts(done) && Nexts(rest)
      invariant Elems(rest) <= Elems(ns)
      invariant Reversed(ns) == Reversed(rest) + done
      decreases |rest|
    {
      assert P in Elems(rest);
      P := MoveToFront(H, P, done, rest);
      UniqueFront(H, done, rest);
      ReversedStep(rest, done);
      done, rest := [rest[0]] + done, rest[1..];
    }
    ListParts(H, done);
    return 0;
  }

  lemma UniqueFront(H: Node, done: seq<Node>, rest: seq<Node>)
    requires Unique([H], done, rest) && rest != []
    ensures Unique([H], [rest[0]] + done, rest[1..])
    ensures Elems(rest[1..]) <= Elems(rest)
  {
  }

  // -------------------------------------------------------------------- merging

  function KeyOf<T(==)>(key: map<T, int>, x: T): int {
    if x in key then key[x] else 0
  }

  /** The merge of two sequences by their keys; ties go to the first. */
  function Merge<T(==)>(a: seq<T>, b: seq<T>, key: map<T, int>): (m: seq<T>) {
    if a == [] then b
    else if b == [] then a
    else if KeyOf(key, a[0]) <= KeyOf(key, b[0]) then [a[0]] + Merge(a[1..], b, key)
    else [b[0]] + Merge(a, b[1..], key)
  }

  /** Merging reuses exactly the elements of both sequences. */
  lemma {:induction false} MergeKeepsAll<T>(a: seq<T>, b: seq<T>, key: map<T, int>)
    ensures multiset(Merge(a, b, key)) == multiset(a) + multiset(b)
    decreases |a| + |b|
  {
    if a != [] && b != [] {
      assert a == [a[0]] + a[1..] && b == [b[0]] + b[1..];
      if KeyOf(key, a[0]) <= KeyOf(key, b[0]) {
        MergeKeepsAll(a[1..], b, key);
      } else {
        MergeKeepsAll(a, b[1..], key);
      }
    }
  }

  ghost predicate Sorted<T>(xs: seq<T>, key: map<T, int>) {
    forall i, j | 0 <= i < j < |xs| :: KeyOf(key, xs[i]) <= KeyOf(key, xs[j])
  }

  lemma InMerge<T>(a: seq<T>, b: seq<T>, key: map<T, int>, x: T)
    requires x in Merge(a, b, key)
    ensures x in a || x in b
  {
    MergeKeepsAll(a, b, key);
    assert x in multiset(Merge(a, b, key));
  }

  lemma {:induction false} MergeSorted<T>(a: seq<T>, b: seq<T>, key: map<T, int>)
    requires Sorted(a, key) && Sorted(b, key)
    ensures Sorted(Merge(a, b, key), key)
    decreases |a| + |b|
  {
    if a != [] && b != [] {
      var fromA := KeyOf(key, a[0]) <= KeyOf(key, b[0]);
      var rest := if fromA then Merge(a[1..], b, key) else Merge(a, b[1..], key);
      if fromA {
        MergeSorted(a[1..], b, key);
      } else {
        MergeSorted(a, b[1..], key);
      }
      var first := if fromA then a[0] else b[0];
      forall x | x in rest
        ensures KeyOf(key, first) <= KeyOf(key, x)
      {
        if fromA { InMerge(a[1..], b, key, x); } else { InMerge(a, b[1..], key, x); }
      }
      assert Merge(a, b, key) == [first] + rest;
    }
  }

  /** The elements of `s`, in order. */
  function Select<T(==)>(xs: seq<T>, s: set<T>): seq<T> {
    if xs == [] then [] else (if xs[0] in s then [xs[0]] else []) + Select(xs[1..], s)
  }

  lemma {:induction false} SelectAllOrNone<T>(xs: seq<T>, s: set<T>)
    ensures (forall i | 0 <= i < |xs| :: xs[i] in s) ==> Select(xs, s) == xs
    ensures (forall i | 0 <= i < |xs| :: xs[i] !in s) ==> Select(xs, s) == []
  {
    if xs != [] {
      SelectAllOrNone(xs[1..], s);
    }
  }

  /** Each list keeps its own order in the merge. */
  lemma {:induction false} MergeKeepsOrder<T>(a: seq<T>, b: seq<T>, key: map<T, int>, s: set<T>, t: set<T>)
    requires forall i | 0 <= i < |a| :: a[i] in s && a[i] !in t
    requires forall i | 0 <= i < |b| :: b[i] in t && b[i] !in s
    ensures Select(Merge(a, b, key), s) == a
    ensures Select(Merge(a, b, key), t) == b
    decreases |a| + |b|
  {
    SelectAllOrNone(a, s);
    SelectAllOrNone(b, s);
    SelectAllOrNone(a, t);
    SelectAllOrNone(b, t);
    if a != [] && b != [] {
      var m := Merge(a, b, key);
      if KeyOf(key, a[0]) <= KeyOf(key, b[0]) {
        assert m[1..] == Merge(a[1..], b, key);
        MergeKeepsOrder(a[1..], b, key, s, t);
      } else {
        assert m[1..] == Merge(a, b[1..], key);
        MergeKeepsOrder(a, b[1..], key, s, t);
      }
    }
  }

  /** Of sorted lists, an element of the second precedes one of the first only if
      its key is strictly less: the merge is stable. */
  lemma {:induction false} MergeStable<T>(a: seq<T>, b: seq<T>, key: map<T, int>, i: nat, j: nat)
    requires Sorted(a, key)
    requires forall k, l | 0 <= k < |a| && 0 <= l < |b| :: a[k] != b[l]
    requires i < j < |Merge(a, b, key)| && Merge(a, b, key)[i] in b && Merge(a, b, key)[j] in a
    ensures KeyOf(key, Merge(a, b, key)[i]) < KeyOf(key, Merge(a, b, key)[j])
    decreases |a| + |b|
  {
    var m := Merge(a, b, key);
    if KeyOf(key, a[0]) <= KeyOf(key, b[0]) {
      assert m[1..] == Merge(a[1..], b, key);
      InMerge(a[1..], b, key, m[j]);
      MergeStable(a[1..], b, key, i - 1, j - 1);
    } else if i > 0 {
      assert m[1..] == Merge(a, b[1..], key);
      InMerge(a, b[1..], key, m[i]);
      MergeStable(a, b[1..], key, i - 1, j - 1);
    }
  }

  ghost function Keys(ns: seq<Node>): map<Node, int>
    reads ns
  {
    map n | n in ns :: n.data
  }

  lemma MergeStep<T>(done: seq<T>, a: seq<T>, b: seq<T>, key: map<T, int>)
    requires a != [] && b != []
    ensures done + Merge(a, b, key) ==
            if KeyOf(key, a[0]) <= KeyOf(key, b[0])
            then done + [a[0]] + Merge(a[1..], b, key)
            else done + [b[0]] + Merge(a, b[1..], key)
  {
  }

  lemma UniqueMove(all: seq<Node>, a: seq<Node>, b: seq<Node>)
    requires Unique(all, a, b) && a != []
    ensures Unique(all + [a[0]], a[1..], b)
    ensures Elems(all + [a[0]]) == Elems(all) + {a[0]} && Elems(a[1..]) <= Elems(a) && a[0] in Elems(a)
  {
  }

  lemma UniqueSwap(all: seq<Node>, a: seq<Node>, b: seq<Node>)
    requires Unique(all, a, b)
    ensures Unique(all, b, a)
  {
  }

  /** Each node points to the next; nothing is said of the last. */
  ghost predicate Links(xs: seq<Node>)
    reads xs
  {
    forall k | 0 <= k < |xs| - 1 :: xs[k].next == xs[k + 1]
  }

  /** Hanging the rest of a list behind a chain. */
  lemma ChainThenRest(all: seq<Node>, rest: seq<Node>, other: seq<Node>)
    requires all != [] && Unique(all, rest, other) && Links(all) && Nexts(rest)
    requires all[|all| - 1].next == At(rest, 0)
    ensures Linked(all + rest)
  {
    var m := all + rest;
    forall i | 0 <= i < |m|
      ensures m[i].next == At(m, i + 1)
    {
      if i >= |all| {
        assert m[i] == rest[i - |all|];
      }
    }
  }

  /** Lines 287-290 and 294-297: moves the first node of `a` behind `last`. */
  method MoveFirst(last: Node, p: Node, ghost all: seq<Node>, ghost a: seq<Node>, ghost b: seq<Node>)
      returns (rest: Node?)
    requires all != [] && a != [] && last == all[|all| - 1] && p == a[0]
    requires Unique(all, a, b) && Links(all) && Nexts(a) && Nexts(b)
    modifies last`next, p`next
    ensures rest == At(a[1..], 0) && p.next == null && last.next == p
    ensures Links(all + [p]) && Nexts(a[1..]) && Nexts(b)
  {
    assert p.next == At(a, 1);
    last.next := p;
    rest := p.next;
    p.next := null;
  }

  /** Merges the nodes of the second list into the first, in place. */
  method ListMerge(H1: Node?, H2: Node?, ghost ns1: seq<Node>, ghost ns2: seq<Node>) returns (r: int)
    requires H1 != null ==> IsList(H1, ns1)
    requires H2 != null ==> IsList(H2, ns2)
    requires H1 != null && H2 != null ==> Apart([H1] + ns1, [H2] + ns2)
    modifies Cells(H1, ns1)`next, Cells(H2, ns2)`next
    ensures r == if H1 == null || H2 == null then -1 else 0
    ensures r == -1 && H1 != null ==> IsList(H1, ns1)
    ensures r == -1 && H2 != null ==> IsList(H2, ns2)
    ensures r == 0 ==> IsList(H1, Merge(ns1, ns2, old(Keys(ns1 + ns2)))) && IsList(H2, [])
  {
    if H1 == null {
      return -1;
    }
    if H2 == null {
      return -1;
    }
    r := 0;
    MergeLists(H1, H2, ns1, ns2);
  }

  lemma UniqueStart(H1: Node, H2: Node, ns1: seq<Node>, ns2: seq<Node>)
    requires IsList(H1, ns1) && IsList(H2, ns2) && Apart([H1] + ns1, [H2] + ns2)
    ensures Unique([H1], ns1, ns2) && H1 != H2 && H2 !in Elems(ns1) && H2 !in Elems(ns2)
    ensures H1.next == At(ns1, 0) && H2.next == At(ns2, 0) && Nexts(ns1) && Nexts(ns2)
  {
    ListParts(H1, ns1);
    ListParts(H2, ns2);
    var xs, ys := [H1] + ns1, [H2] + ns2;
    assert xs[0] == H1 && ys[0] == H2;
    forall k, l | 0 <= k < |ns1| && 0 <= l < |ns2|
      ensures ns1[k] != ns2[l] && ns1[k] != H2 && H1 != ns2[l]
    {
      assert xs[k + 1] == ns1[k] && ys[l + 1] == ns2[l];
    }
    forall k | 0 <= k < |ns1|
      ensures ns1[k] != H2
    {
      assert xs[k + 1] == ns1[k];
    }
    forall l | 0 <= l < |ns2|
      ensures ns2[l] != H1
    {
      assert ys[l + 1] == ns2[l];
    }
  }

  /** Lines 277-307, with both sentinels present. */
  method MergeLists(H1: Node, H2: Node, ghost ns1: seq<Node>, ghost ns2: seq<Node>)
    requires IsList(H1, ns1) && IsList(H2, ns2) && Apart([H1] + ns1, [H2] + ns2)
    modifies Cells(H1, ns1)`next, Cells(H2, ns2)`next
    ensures IsList(H1, Merge(ns1, ns2, old(Keys(ns1 + ns2)))) && IsList(H2, [])
  {
    UniqueStart(H1, H2, ns1, ns2);
    ghost var key := Keys(ns1 + ns2);
    var p, q := H1.next, H2.next;
    H1.next := null;
    H2.next := null;
    MergeLoop(H1, p, q, ns1, ns2, key);
  }

  ghost predicate HasKeys(xs: seq<Node>, key: map<Node, int>)
    reads xs
  {
    forall k | 0 <= k < |xs| :: KeyOf(key, xs[k]) == xs[k].data
  }

  /** Lines 280 and 283-307: `p` and `q` are the lists still to be merged behind `H1`. */
  method MergeLoop(H1: Node, p0: Node?, q0: Node?,
                   ghost ns1: seq<Node>, ghost ns2: seq<Node>, ghost key: map<Node, int>)
    requires p0 == At(ns1, 0) && q0 == At(ns2, 0)
    requires Unique([H1], ns1, ns2) && Nexts(ns1) && Nexts(ns2) && HasKeys(ns1, key) && HasKeys(ns2, key)
    modifies ({H1} + Elems(ns1) + Elems(ns2))`next
    ensures IsList(H1, Merge(ns1, ns2, key))
  {
    ghost var m := Merge(ns1, ns2, key);
    ghost var all, a, b := [H1], ns1, ns2;
    var p, q, last := p0, q0, H1;
    while q != null && p != null
      invariant all != [] && p == At(a, 0) && q == At(b, 0) && last == all[|all| - 1]
      invariant [H1] + m == all + Merge(a, b, key)
      invariant Unique(all, a, b) && Links(all) && Nexts(a) && Nexts(b)
      invariant HasKeys(a, key) && HasKeys(b, key)
      invariant Elems(all) <= {H1} + Elems(ns1) + Elems(ns2) && Elems(a) <= Elems(ns1) && Elems(b) <= Elems(ns2)
      decreases |a| + |b|
    {
      MergeStep(all, a, b, key);
      assert last in Elems(all) && p in Elems(a) && q in Elems(b);
      if p.data <= q.data {
        p := MoveFirst(last, p, all, a, b);
        UniqueMove(all, a, b);
        last := last.next;
        all, a := all + [a[0]], a[1..];
      } else {
        UniqueSwap(all, a, b);
        q := MoveFirst(last, q, all, b, a);
        UniqueMove(all, b, a);
        UniqueSwap(all + [b[0]], b[1..], a);
        last := last.next;
        all, b := all + [b[0]], b[1..];
      }
    }
    assert last in Elems(all);
    if p == null {
      last.next := q;
      UniqueSwap(all, a, b);
      ChainThenRest(all, b, a);
    } else {
      last.next := p;
      ChainThenRest(all, a, b);
    }
  }

  ghost predicate SortedByData(ns: seq<Node>)
    reads Elems(ns)`data
  {
    forall i, j | 0 <= i < j < |ns| :: ns[i].data <= ns[j].data
  }

  lemma SortedKeys(ns: seq<Node>, key: map<Node, int>)
    requires HasKeys(ns, key)
    ensures SortedByData(ns) <==> Sorted(ns, key)
  {
    assert forall i, j | 0 <= i < j < |ns| :: KeyOf(key, ns[i]) == ns[i].data && KeyOf(key, ns[j]) == ns[j].data;
  }

  /** Nodes of `ys` precede nodes of `xs` only with strictly smaller data. */
  ghost predicate TiesToFirst(m: seq<Node>, xs: seq<Node>, ys: seq<Node>)
    reads Elems(m)`data
  {
    forall i, j | 0 <= i < j < |m| && m[i] in ys && m[j] in xs :: m[i].data < m[j].data
  }

  lemma MergedSorted(ns1: seq<Node>, ns2: seq<Node>, key: map<Node, int>)
    requires HasKeys(ns1, key) && HasKeys(ns2, key) && SortedByData(ns1) && SortedByData(ns2)
    ensures SortedByData(Merge(ns1, ns2, key))
  {
    SortedKeys(ns1, key);
    SortedKeys(ns2, key);
    MergeSorted(ns1, ns2, key);
    MergeHasKeys(ns1, ns2, key);
    SortedKeys(Merge(ns1, ns2, key), key);
  }

  lemma MergedStable(ns1: seq<Node>, ns2: seq<Node>, key: map<Node, int>)
    requires Apart(ns1, ns2) && HasKeys(ns1, key) && HasKeys(ns2, key) && SortedByData(ns1)
    ensures TiesToFirst(Merge(ns1, ns2, key), ns1, ns2)
  {
    var m := Merge(ns1, ns2, key);
    SortedKeys(ns1, key);
    MergeHasKeys(ns1, ns2, key);
    forall i, j | 0 <= i < j < |m| && m[i] in ns2 && m[j] in ns1
      ensures m[i].data < m[j].data
    {
      MergeStable(ns1, ns2, key, i, j);
      assert KeyOf(key, m[i]) == m[i].data && KeyOf(key, m[j]) == m[j].data;
    }
  }

  /** The merge of two disjoint lists of nodes, in terms of their `data`. */
  lemma MergedNodes(ns1: seq<Node>, ns2: seq<Node>, key: map<Node, int>)
    requires Apart(ns1, ns2) && HasKeys(ns1, key) && HasKeys(ns2, key)
    ensures var m := Merge(ns1, ns2, key);
      && multiset(m) == multiset(ns1) + multiset(ns2)
      && Select(m, Elems(ns1)) == ns1 && Select(m, Elems(ns2)) == ns2
      && (SortedByData(ns1) && SortedByData(ns2) ==> SortedByData(m))
      && (SortedByData(ns1) ==> TiesToFirst(m, ns1, ns2))
  {
    MergeKeepsAll(ns1, ns2, key);
    MergeKeepsOrder(ns1, ns2, key, Elems(ns1), Elems(ns2));
    if SortedByData(ns1) {
      MergedStable(ns1, ns2, key);
      if SortedByData(ns2) {
        MergedSorted(ns1, ns2, key);
      }
    }
  }

  lemma MergeHasKeys(ns1: seq<Node>, ns2: seq<Node>, key: map<Node, int>)
    requires HasKeys(ns1, key) && HasKeys(ns2, key)
    ensures HasKeys(Merge(ns1, ns2, key), key)
  {
    var m := Merge(ns1, ns2, key);
    forall k | 0 <= k < |m|
      ensures KeyOf(key, m[k]) == m[k].data
    {
      InMerge(ns1, ns2, key, m[k]);
    }
  }

  /** What a call of ListMerge leaves behind `H1`: exactly the nodes of both lists,
      each list in its own order; sorted if both were, with ties to the first. */
  method MergeOfLists(H1: Node, H2: Node, ghost ns1: seq<Node>, ghost ns2: seq<Node>)
      returns (r: int, ghost m: seq<Node>)
    requires IsList(H1, ns1) && IsList(H2, ns2) && Apart([H1] + ns1, [H2] + ns2)
    modifies Cells(H1, ns1)`next, Cells(H2, ns2)`next
    ensures r == 0 && IsList(H1, m) && IsList(H2, [])
    ensures multiset(m) == multiset(ns1) + multiset(ns2)
    ensures Select(m, Elems(ns1)) == ns1 && Select(m, Elems(ns2)) == ns2
    ensures SortedByData(ns1) && SortedByData(ns2) ==> SortedByData(m)
    ensures SortedByData(ns1) ==> TiesToFirst(m, ns1, ns2)
  {
    UniqueStart(H1, H2, ns1, ns2);
    ghost var key := Keys(ns1 + ns2);
    m := Merge(ns1, ns2, key);
    r := ListMerge(H1, H2, ns1, ns2);
    MergedNodes(ns1, ns2, key);
  }

  // ------------------------------------------------- a list merged with itself

  /** From `H` on the chain never leaves `c`, so it never ends. */
  ghost predicate Loops(H: Node, c: seq<Node>)
    reads H, c
  {
    H.next != null && H.next in c && forall k | 0 <= k < |c| :: c[k].next != null && c[k].next in c
  }

  lemma {:induction false} StaysInLoop(H: Node, c: seq<Node>, ns: seq<Node>, k: nat)
    requires Loops(H, c) && H.next == At(ns, 0) && Nexts(ns) && k < |ns|
    ensures ns[k] in c
  {
    if k > 0 {
      StaysInLoop(H, c, ns, k - 1);
      assert ns[k - 1].next == At(ns, k);
    }
  }

  lemma LoopIsNoList(H: Node, c: seq<Node>, ns: seq<Node>)
    requires Loops(H, c)
    ensures !IsList(H, ns)
  {
    ListParts(H, ns);
    if H.next == At(ns, 0) && Nexts(ns) {
      StaysInLoop(H, c, ns, |ns| - 1);
    }
  }

  /** Lines 294-297 when the nodes from `q` on end at `last`: the first becomes the last. */
  method Rotate(last: Node, q: Node, ghost c: seq<Node>) returns (rest: Node?, end: Node)
    requires c != [] && q == c[0] && last == c[|c| - 1] && Linked(c)
    modifies last`next, q`next
    ensures rest == (c[1..] + [q])[0] && end == q && Linked(c[1..] + [q])
  {
    last.next := q;
    rest := q.next;
    end := last.next;
    end.next := null;
    ghost var d := c[1..] + [q];
    forall i | 0 <= i < |d|
      ensures d[i].next == At(d, i + 1)
    {
    }
  }

  ghost predicate FirstIsGreatest(ns: seq<Node>)
    reads Elems(ns)`data
  {
    forall k | 0 <= k < |ns| :: ns[k].data <= ns[0].data
  }

  /** Between two turns: the nodes `c`, behind `H`, run from `q` to `last`; those not
      reached yet are `rest`. */
  ghost predicate MergingSelf(H: Node, p: Node?, q: Node?, last: Node, ns: seq<Node>, c: seq<Node>, rest: seq<Node>)
    requires ns != []
    reads H, c, rest, ns
  {
    && Unique([H], c, rest) && p == At(rest, 0) && Nexts(rest)
    && (if c == []
        then rest == ns && q == ns[0] && last == H && H.next == null
        else q == c[0] && last == c[|c| - 1] && Linked(c) && H.next != null && H.next in c)
    && Elems(c) + Elems(rest) == Elems(ns)
    && forall k | 0 <= k < |c| :: c[k].data <= ns[0].data
  }

  lemma LinkedOn(c: seq<Node>, p: Node)
    requires Distinct(c) && p !in c && Links(c + [p]) && p.next == null
    ensures Linked(c + [p])
  {
  }

  lemma ElemsMove(c: seq<Node>, rest: seq<Node>)
    requires rest != []
    ensures Elems(c + [rest[0]]) + Elems(rest[1..]) == Elems(c) + Elems(rest)
  {
  }

  /** Lines 287-290: `p` goes behind `last`. */
  method TakeNext(H: Node, p: Node, q: Node, last: Node, ghost ns: seq<Node>, ghost c: seq<Node>, ghost rest: seq<Node>)
      returns (p': Node?, end: Node)
    requires ns != [] && rest != [] && MergingSelf(H, p, q, last, ns, c, rest) && p.data <= q.data
    modifies last`next, p`next
    ensures MergingSelf(H, p', q, end, ns, c + [p], rest[1..])
  {
    ghost var all := if c == [] then [H] else c;
    UniqueMove(c, rest, []);
    p' := MoveFirst(last, p, all, rest, []);
    end := last.next;
    LinkedOn(c, p);
    ElemsMove(c, rest);
  }

  /** Lines 294-297: `q` goes behind `last`, closing and opening a circle. */
  method TurnRound(H: Node, p: Node?, q: Node, last: Node,
                   ghost ns: seq<Node>, ghost c: seq<Node>, ghost rest: seq<Node>)
      returns (q': Node?, end: Node)
    requires ns != [] && c != [] && MergingSelf(H, p, q, last, ns, c, rest)
    modifies last`next, q`next
    ensures MergingSelf(H, p, q', end, ns, c[1..] + [q], rest)
  {
    Rotated(H, c, rest);
    q', end := Rotate(last, q, c);
  }

  lemma Rotated(H: Node, c: seq<Node>, rest: seq<Node>)
    requires c != [] && Unique([H], c, rest)
    ensures Unique([H], c[1..] + [c[0]], rest) && Elems(c[1..] + [c[0]]) == Elems(c)
  {
    assert c == [c[0]] + c[1..];
  }

  /** The loop of list_merge(H, H), stopped after `turns` turns if it has not ended
      by then. On a list that is not empty it ends if and only if the first node has
      the greatest data, and never leaves a list behind. */
  method MergeWithItself(H: Node, turns: nat, ghost ns: seq<Node>) returns (ended: bool)
    requires IsList(H, ns) && ns != []
    modifies Cells(H, ns)`next
    ensures ended ==> forall xs: seq<Node> :: !IsList(H, xs)
    ensures ended ==> FirstIsGreatest(ns)
    ensures FirstIsGreatest(ns) && |ns| <= turns ==> ended
  {
    ListParts(H, ns);
    var p, q, last := H.next, H.next, H;
    H.next := null;
    var left := turns;
    ghost var c: seq<Node>, rest := [], ns;
    ghost var greatest := FirstIsGreatest(ns);
    while q != null && p != null && left > 0
      invariant MergingSelf(H, p, q, last, ns, c, rest)
      invariant 0 <= left <= turns
      invariant greatest ==> q == ns[0] && turns - left == |ns| - |rest|
      decreases left
    {
      assert p in Elems(rest) && p in Elems(ns);
      assert last in Elems(c) + {H} && q in Elems(ns);
      if greatest {
        NotGreater(ns, p);
      }
      if p.data <= q.data {
        ghost var first: Node := p;
        p, last := TakeNext(H, p, q, last, ns, c, rest);
        c, rest := c + [first], rest[1..];
      } else {
        ghost var first: Node := q;
        q, last := TurnRound(H, p, q, last, ns, c, rest);
        c := c[1..] + [first];
      }
      left := left - 1;
    }
    ended := p == null;
    if ended {
      assert rest == [] && c != [];
      EveryNodeReached(ns, c);
      assert last in Elems(c);
      CloseCircle(H, q, last, ns, c);
    }
  }

  /** Lines 300-303, when every node has been taken. */
  method CloseCircle(H: Node, q: Node?, last: Node, ghost ns: seq<Node>, ghost c: seq<Node>)
    requires ns != [] && c != [] && MergingSelf(H, null, q, last, ns, c, [])
    modifies last`next
    ensures forall xs: seq<Node> :: !IsList(H, xs)
  {
    last.next := q;
    assert Loops(H, c);
    forall xs: seq<Node>
      ensures !IsList(H, xs)
    {
      LoopIsNoList(H, c, xs);
    }
  }

  lemma NotGreater(ns: seq<Node>, n: Node)
    requires n in ns && FirstIsGreatest(ns)
    ensures n.data <= ns[0].data
  {
  }

  lemma EveryNodeReached(ns: seq<Node>, c: seq<Node>)
    requires ns != [] && Elems(c) == Elems(ns) && forall k | 0 <= k < |c| :: c[k].data <= ns[0].data
    ensures FirstIsGreatest(ns)
  {
    forall k | 0 <= k < |ns|
      ensures ns[k].data <= ns[0].data
    {
      assert ns[k] in Elems(c);
    }
  }

  // ---------------------------------------------------------- one call undoes another

  /** Reversing twice restores the list, node for node. */
  method ReverseTwice(H: Node, ghost ns: seq<Node>)
    requires IsList(H, ns)
    modifies Cells(H, ns)`next
    ensures IsList(H, ns)
  {
    var r := ListReverse(H, ns);
    ReversedElems(ns);
    assert Cells(H, Reversed(ns)) == {H} + Elems(Reversed(ns)) == Cells(H, ns);
    r := ListReverse(H, Reversed(ns));
    ReversedTwice(ns);
  }

  lemma {:induction false} ReversedElems(ns: seq<Node>)
    ensures Elems(Reversed(ns)) == Elems(ns)
  {
    if ns != [] {
      ReversedElems(ns[1..]);
      assert Elems(Reversed(ns)) == Elems(Reversed(ns[1..])) + {ns[0]};
      assert Elems(ns) == Elems(ns[1..]) + {ns[0]};
    }
  }

  /** Deleting at the position of an insertion restores the list, and frees the very
      node that was inserted. */
  method InsertThenDelete(H: Node, value: int, pos: int, ghost ns: seq<Node>) returns (ghost freed: Node)
    requires IsList(H, ns) && pos <= |ns|
    modifies Cells(H, ns)`next
    ensures fresh(freed) && freed.data == value
    ensures IsList(H, ns)
  {
    ghost var q, f;
    var r;
    r, q := ListInsert(H, value, pos, true, ns);
    ghost var k := if pos < 0 then 0 else pos;
    InsertedFirst(ns, q);
    ghost var m := ns[..k] + [q] + ns[k..];
    InsertedGone(ns, k, q);
    r, f := ListDelete(H, pos, m);
    freed := f;
  }

  lemma InsertedGone(ns: seq<Node>, k: nat, q: Node)
    requires k <= |ns|
    ensures var m := ns[..k] + [q] + ns[k..];
      m != [] && m[k] == q && m[..k] + m[k + 1..] == ns && (k == 0 ==> m[1..] == ns)
  {
  }

  /** The last node inserted at the tail is the first one popped. */
  method TailInsertThenPoo(H: Node, value: int, ghost ns: seq<Node>) returns (r: Node)
    requires IsList(H, ns)
    modifies Cells(H, ns)`next
    ensures r.data == value && IsList(H, ns)
  {
    ghost var q;
    var ok;
    ok, q := ListTailInsert(H, value, true, ns);
    r := ListPoo(H, ns + [q]);
    assert (ns + [q])[..|ns|] == ns;
  }
}
