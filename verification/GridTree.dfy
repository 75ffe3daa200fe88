/** The nested overrides of a grid: listing its leaves and rebuilding one combination (tradalgo/backtest/sweep.py:89-107). */
module GridTrees {
  import opened Common

  datatype Tree<V> = Dict(entries: seq<Entry<V>>) | List(values: seq<V>) | Scalar(value: V)

  /** A key of a mapping, in insertion order. */
  datatype Entry<V> = Entry(key: string, tree: Tree<V>)

  datatype Leaf<V> = Leaf(path: seq<string>, values: seq<V>)

  datatype Pair<V> = Pair(path: seq<string>, value: V)

  function Leaves<V>(entries: seq<Entry<V>>, prefix: seq<string>): seq<Leaf<V>>
    decreases entries
  {
    if entries == [] then [] else
    var e := entries[0];
    var path := prefix + [e.key];
    (match e.tree
     case Dict(sub) => Leaves(sub, path)
     case List(values) => [Leaf(path, values)]
     case Scalar(value) => [Leaf(path, [value])]) + Leaves(entries[1..], prefix)
  }

  /** A value under a path of new keys. */
  function Made<V>(path: seq<string>, value: V): Tree<V>
    decreases |path|
  {
    if path == [] then Scalar(value) else Dict([Entry(path[0], Made(path[1..], value))])
  }

  /** Set the value at a path, making the mappings on the way; a path through something else fails. */
  function Insert<V>(entries: seq<Entry<V>>, path: seq<string>, value: V): Option<seq<Entry<V>>>
    requires path != []
    decreases |path|, |entries|
  {
    if entries == [] then Some([Entry(path[0], Made(path[1..], value))])
    else if entries[0].key != path[0] then
      var rest := Insert(entries[1..], path, value);
      if rest.None? then None else Some([entries[0]] + rest.value)
    else if |path| == 1 then Some([Entry(path[0], Scalar(value))] + entries[1..])
    else if !entries[0].tree.Dict? then None
    else
      var sub := Insert(entries[0].tree.entries, path[1..], value);
      if sub.None? then None else Some([Entry(path[0], Dict(sub.value))] + entries[1..])
  }

  ghost predicate Paths<V>(pairs: seq<Pair<V>>) {
    forall i :: 0 <= i < |pairs| ==> pairs[i].path != []
  }

  function NestInto<V>(entries: seq<Entry<V>>, pairs: seq<Pair<V>>): Option<seq<Entry<V>>>
    requires Paths(pairs)
    decreases |pairs|
  {
    if pairs == [] then Some(entries) else
    var front := NestInto(entries, pairs[..|pairs| - 1]);
    var p := pairs[|pairs| - 1];
    if front.None? then None else Insert(front.value, p.path, p.value)
  }

  method Nest<V>(pairs: seq<Pair<V>>) returns (out: Option<seq<Entry<V>>>)
    requires Paths(pairs)
    ensures out == NestInto([], pairs)
  {
    out := Some([]);
    var i := 0;
    while i < |pairs|
      invariant 0 <= i <= |pairs|
      invariant out == NestInto([], pairs[..i])
    {
      assert pairs[..i + 1][..|pairs[..i + 1]| - 1] == pairs[..i];
      out := if out.None? then None else Insert(out.value, pairs[i].path, pairs[i].value);
      i := i + 1;
    }
    assert pairs[..i] == pairs;
  }

  // ---------------------------------------------------------------- one value for each leaf

  function Zip<V>(leaves: seq<Leaf<V>>, values: seq<V>): (ps: seq<Pair<V>>)
    requires |leaves| == |values|
    ensures |ps| == |leaves| && forall i :: 0 <= i < |ps| ==> ps[i] == Pair(leaves[i].path, values[i])
  {
    if leaves == [] then [] else [Pair(leaves[0].path, values[0])] + Zip(leaves[1..], values[1..])
  }

  function Under<V>(prefix: seq<string>, leaves: seq<Leaf<V>>): (r: seq<Leaf<V>>)
    ensures |r| == |leaves| && forall i :: 0 <= i < |r| ==> r[i] == Leaf(prefix + leaves[i].path, leaves[i].values)
  {
    seq(|leaves|, i requires 0 <= i < |leaves| => Leaf(prefix + leaves[i].path, leaves[i].values))
  }

  /** The leaves of one entry, from its key on. */
  function Head<V>(e: Entry<V>): seq<Leaf<V>> {
    match e.tree
    case Dict(sub) => Under([e.key], Leaves(sub, []))
    case List(values) => [Leaf([e.key], values)]
    case Scalar(value) => [Leaf([e.key], [value])]
  }

  /** A longer prefix lengthens every path. */
  lemma {:induction false} LeavesUnder<V>(entries: seq<Entry<V>>, a: seq<string>, b: seq<string>)
    ensures Leaves(entries, a + b) == Under(a, Leaves(entries, b))
    decreases entries
  {
    if entries != [] {
      var e := entries[0];
      LeavesUnder(entries[1..], a, b);
      assert a + b + [e.key] == a + (b + [e.key]);
      if e.tree.Dict? {
        LeavesUnder(e.tree.entries, a, b + [e.key]);
      }
    }
  }

  lemma UnderTwice<V>(a: seq<string>, b: seq<string>, leaves: seq<Leaf<V>>)
    ensures Under(a, Under(b, leaves)) == Under(a + b, leaves) && Under([], leaves) == leaves
  {
    forall k | 0 <= k < |leaves|
      ensures a + (b + leaves[k].path) == a + b + leaves[k].path && [] + leaves[k].path == leaves[k].path
    {
    }
  }

  /** The leaves of the first entry. */
  lemma LeavesOfHead<V>(e: Entry<V>, prefix: seq<string>)
    ensures Under(prefix, Head(e)) == match e.tree
                                      case Dict(sub) => Leaves(sub, prefix + [e.key])
                                      case List(values) => [Leaf(prefix + [e.key], values)]
                                      case Scalar(value) => [Leaf(prefix + [e.key], [value])]
  {
    if e.tree.Dict? {
      var sub := e.tree.entries;
      LeavesUnder(sub, prefix + [e.key], []);
      assert prefix + [e.key] + [] == prefix + [e.key];
      hide Leaves;
      UnderTwice(prefix, [e.key], Leaves(sub, []));
    }
  }

  /** Leaves entry by entry. */
  lemma LeavesCons<V>(entries: seq<Entry<V>>, prefix: seq<string>)
    requires entries != []
    ensures Leaves(entries, prefix) == Under(prefix, Head(entries[0])) + Leaves(entries[1..], prefix)
    ensures Leaves(entries, []) == Head(entries[0]) + Leaves(entries[1..], [])
    ensures |Leaves(entries, prefix)| == |Leaves(entries, [])|
  {
    LeavesOfHead(entries[0], prefix);
    LeavesOfHead(entries[0], []);
    hide Head, Under;
    assert prefix + [] == prefix;
    LeavesUnder(entries[1..], prefix, []);
    UnderTwice([], [], Head(entries[0]));
  }

  /** The tree itself with each leaf replaced by its value, in order; mappings without a leaf disappear. */
  function Chosen<V>(entries: seq<Entry<V>>, values: seq<V>): seq<Entry<V>>
    requires |values| == |Leaves(entries, [])|
    decreases entries
  {
    if entries == [] then [] else
    LeavesCons(entries, []);
    var e, n := entries[0], |Head(entries[0])|;
    (match e.tree
     case Dict(sub) => if n == 0 then [] else [Entry(e.key, Dict(Chosen(sub, values[..n])))]
     case List(_) => [Entry(e.key, Scalar(values[0]))]
     case Scalar(_) => [Entry(e.key, Scalar(values[0]))]) + Chosen(entries[1..], values[n..])
  }

  /** What the first entry becomes. */
  function ChosenHead<V>(e: Entry<V>, values: seq<V>): seq<Entry<V>>
    requires |values| == |Head(e)|
  {
    match e.tree
    case Dict(sub) => if values == [] then [] else [Entry(e.key, Dict(Chosen(sub, values)))]
    case List(_) => [Entry(e.key, Scalar(values[0]))]
    case Scalar(_) => [Entry(e.key, Scalar(values[0]))]
  }

  lemma ChosenCons<V>(entries: seq<Entry<V>>, values: seq<V>)
    requires |values| == |Leaves(entries, [])| && entries != []
    ensures var n := |Head(entries[0])|;
            && |Leaves(entries[1..], [])| == |values| - n && n <= |values|
            && Chosen(entries, values) == ChosenHead(entries[0], values[..n]) + Chosen(entries[1..], values[n..])
  {
    LeavesCons(entries, []);
    hide Leaves;
  }

  /** Keys of a mapping are distinct, at every depth. */
  ghost predicate Keyed<V>(entries: seq<Entry<V>>)
    decreases entries
  {
    && (forall i, j :: 0 <= i < j < |entries| ==> entries[i].key != entries[j].key)
    && (entries != [] ==> (entries[0].tree.Dict? ==> Keyed(entries[0].tree.entries)) && Keyed(entries[1..]))
  }

  // ---------------------------------------------------------------- inserting in order rebuilds the tree

  ghost predicate Lacks<V>(entries: seq<Entry<V>>, key: string) {
    forall i :: 0 <= i < |entries| ==> entries[i].key != key
  }

  /** Keys that differ from the path's first are passed over. */
  lemma {:induction false} InsertPast<V>(a: seq<Entry<V>>, b: seq<Entry<V>>, path: seq<string>, value: V)
    requires path != [] && Lacks(a, path[0])
    ensures Insert(a + b, path, value)
         == if Insert(b, path, value).None? then None else Some(a + Insert(b, path, value).value)
    decreases |a|
  {
    if a == [] {
      assert a + b == b;
      if Insert(b, path, value).Some? {
        assert a + Insert(b, path, value).value == Insert(b, path, value).value;
      }
    } else {
      assert (a + b)[1..] == a[1..] + b && (a + b)[0] == a[0];
      InsertPast(a[1..], b, path, value);
      if Insert(b, path, value).Some? {
        var x := Insert(b, path, value).value;
        assert [a[0]] + (a[1..] + x) == a + x;
      }
    }
  }

  function Nested<V>(key: string, pairs: seq<Pair<V>>): (r: seq<Pair<V>>)
    ensures |r| == |pairs| && forall i :: 0 <= i < |r| ==> r[i] == Pair([key] + pairs[i].path, pairs[i].value)
  {
    seq(|pairs|, i requires 0 <= i < |pairs| => Pair([key] + pairs[i].path, pairs[i].value))
  }

  lemma MadeIsInsert<V>(path: seq<string>, value: V)
    requires path != []
    ensures Insert([], path, value) == Some([Entry(path[0], Made(path[1..], value))])
    ensures Made(path, value) == Dict([Entry(path[0], Made(path[1..], value))])
  {
  }

  /** Pairs under a new key build one mapping, which holds what the pairs build by themselves. */
  lemma {:induction false} NestUnder<V>(entries: seq<Entry<V>>, key: string, pairs: seq<Pair<V>>)
    requires Lacks(entries, key) && Paths(pairs) && pairs != [] && NestInto([], pairs).Some?
    ensures NestInto(entries, Nested(key, pairs)) == Some(entries + [Entry(key, Dict(NestInto([], pairs).value))])
    decreases |pairs|
  {
    var n := |pairs| - 1;
    var front, p := pairs[..n], pairs[n];
    var all := Nested(key, pairs);
    assert all[..n] == Nested(key, front) && all[n] == Pair([key] + p.path, p.value);
    assert ([key] + p.path)[1..] == p.path && ([key] + p.path)[0] == key;
    if front == [] {
      InsertPast(entries, [], [key] + p.path, p.value);
      assert entries + [] == entries;
      MadeIsInsert(p.path, p.value);
    } else {
      NestUnder(entries, key, front);
      var sub := NestInto([], front).value;
      InsertPast(entries, [Entry(key, Dict(sub))], [key] + p.path, p.value);
      var last := [Entry(key, Dict(sub))];
      assert last[1..] == [];
      var x := Insert(sub, p.path, p.value).value;
      assert Insert(last, [key] + p.path, p.value) == Some([Entry(key, Dict(x))] + []);
      assert [Entry(key, Dict(x))] + [] == [Entry(key, Dict(x))];
    }
  }

  lemma {:induction false} NestAppend<V>(entries: seq<Entry<V>>, a: seq<Pair<V>>, b: seq<Pair<V>>)
    requires Paths(a) && Paths(b) && NestInto(entries, a).Some?
    ensures Paths(a + b) && NestInto(entries, a + b) == NestInto(NestInto(entries, a).value, b)
    decreases |b|
  {
    if b == [] {
      assert a + b == a;
    } else {
      assert (a + b)[..|a + b| - 1] == a + b[..|b| - 1];
      NestAppend(entries, a, b[..|b| - 1]);
    }
  }

  lemma ZipParts<V>(a: seq<Leaf<V>>, b: seq<Leaf<V>>, values: seq<V>)
    requires |values| == |a| + |b|
    ensures Zip(a + b, values) == Zip(a, values[..|a|]) + Zip(b, values[|a|..])
  {
  }

  lemma NestHead<V>(done: seq<Entry<V>>, e: Entry<V>, values: seq<V>)
    requires |values| == |Head(e)| && Lacks(done, e.key)
    requires e.tree.Dict? ==> var ps := Zip(Leaves(e.tree.entries, []), values);
                              Paths(ps) && NestInto([], ps) == Some(Chosen(e.tree.entries, values))
    ensures Paths(Zip(Head(e), values)) && NestInto(done, Zip(Head(e), values)) == Some(done + ChosenHead(e, values))
  {
    hide Leaves, Chosen;
    if e.tree.Dict? {
      var mine := Zip(Leaves(e.tree.entries, []), values);
      assert Zip(Head(e), values) == Nested(e.key, mine);
      if values == [] {
        assert Nested(e.key, mine) == [] && done + [] == done;
      } else {
        NestUnder(done, e.key, mine);
      }
    } else {
      var one := Zip(Head(e), values);
      assert one == [Pair([e.key], values[0])];
      InsertPast(done, [], [e.key], values[0]);
      assert done + [] == done && one[..0] == [];
      assert NestInto(done, []) == Some(done);
      assert NestInto(done, one) == Insert(done, [e.key], values[0]);
    }
  }

  lemma NoneLacking<V>(entries: seq<Entry<V>>)
    ensures forall i :: 0 <= i < |entries| ==> Lacks<V>([], entries[i].key)
  {
  }

  lemma NestBoth<V>(done: seq<Entry<V>>, first: seq<Pair<V>>, rest: seq<Pair<V>>, a: seq<Entry<V>>, b: seq<Entry<V>>)
    requires Paths(first) && Paths(rest)
    requires NestInto(done, first) == Some(done + a) && NestInto(done + a, rest) == Some(done + a + b)
    ensures Paths(first + rest) && NestInto(done, first + rest) == Some(done + (a + b))
  {
    hide NestInto;
    NestAppend(done, first, rest);
    assert done + a + b == done + (a + b);
  }

  /** Nesting the first entry and then the rest is nesting all. */
  lemma NestJoin<V>(done: seq<Entry<V>>, entries: seq<Entry<V>>, values: seq<V>)
    requires entries != [] && |values| == |Leaves(entries, [])| && |Head(entries[0])| <= |values|
    requires |Leaves(entries[1..], [])| == |values| - |Head(entries[0])|
    requires var n := |Head(entries[0])|;
             var first, rest := Zip(Head(entries[0]), values[..n]), Zip(Leaves(entries[1..], []), values[n..]);
             && Paths(first) && Paths(rest)
             && NestInto(done, first) == Some(done + ChosenHead(entries[0], values[..n]))
             && NestInto(done + ChosenHead(entries[0], values[..n]), rest)
                == Some(done + ChosenHead(entries[0], values[..n]) + Chosen(entries[1..], values[n..]))
    ensures Paths(Zip(Leaves(entries, []), values))
    ensures NestInto(done, Zip(Leaves(entries, []), values)) == Some(done + Chosen(entries, values))
  {
    var n := |Head(entries[0])|;
    hide *;
    LeavesCons(entries, []);
    ChosenCons(entries, values);
    ZipParts(Head(entries[0]), Leaves(entries[1..], []), values);
    NestBoth(done, Zip(Head(entries[0]), values[..n]), Zip(Leaves(entries[1..], []), values[n..]),
             ChosenHead(entries[0], values[..n]), Chosen(entries[1..], values[n..]));
  }

  lemma OnlyItsKey<V>(e: Entry<V>, values: seq<V>)
    requires |values| == |Head(e)|
    ensures forall i :: 0 <= i < |ChosenHead(e, values)| ==> ChosenHead(e, values)[i].key == e.key
  {
  }

  lemma RestLacks<V>(done: seq<Entry<V>>, entries: seq<Entry<V>>, values: seq<V>)
    requires Keyed(entries) && entries != [] && |values| == |Head(entries[0])|
    requires forall i :: 0 <= i < |entries| ==> Lacks(done, entries[i].key)
    ensures Keyed(entries[1..]) && Lacks(done, entries[0].key)
    ensures entries[0].tree.Dict? ==> Keyed(entries[0].tree.entries)
    ensures forall i :: 0 <= i < |entries[1..]| ==> Lacks(done + ChosenHead(entries[0], values), entries[1..][i].key)
  {
    OnlyItsKey(entries[0], values);
    hide ChosenHead, Head;
  }

  /** Nesting the leaves with a value each, after other keys, adds exactly the chosen tree. */
  lemma {:induction false} NestIsChosen<V>(done: seq<Entry<V>>, entries: seq<Entry<V>>, values: seq<V>)
    requires Keyed(entries) && |values| == |Leaves(entries, [])|
    requires forall i :: 0 <= i < |entries| ==> Lacks(done, entries[i].key)
    ensures Paths(Zip(Leaves(entries, []), values))
    ensures NestInto(done, Zip(Leaves(entries, []), values)) == Some(done + Chosen(entries, values))
    decreases entries
  {
    if entries == [] {
      assert done + [] == done && Zip(Leaves(entries, []), values) == [];
    } else {
      var n := |Head(entries[0])|;
      hide *;
      ChosenCons(entries, values);
      RestLacks(done, entries, values[..n]);
      NestFirst(done, entries, values[..n]);
      NestIsChosen(done + ChosenHead(entries[0], values[..n]), entries[1..], values[n..]);
      NestJoin(done, entries, values);
    }
  }

  lemma {:induction false} NestFirst<V>(done: seq<Entry<V>>, entries: seq<Entry<V>>, values: seq<V>)
    requires Keyed(entries) && entries != [] && |values| == |Head(entries[0])| && Lacks(done, entries[0].key)
    ensures Paths(Zip(Head(entries[0]), values))
    ensures NestInto(done, Zip(Head(entries[0]), values)) == Some(done + ChosenHead(entries[0], values))
    decreases entries, 0
  {
    var e := entries[0];
    if e.tree.Dict? {
      var sub := e.tree.entries;
      NoneLacking(sub);
      assert |Leaves(sub, [])| == |values|;
      NestIsChosen([], sub, values);
      assert [] + Chosen(sub, values) == Chosen(sub, values);
    }
    hide *;
    NestHead(done, e, values);
  }

  /** Each path with the one value picked for it. */
  function Singles<V>(leaves: seq<Leaf<V>>, values: seq<V>): (r: seq<Leaf<V>>)
    requires |leaves| == |values|
    ensures |r| == |leaves| && forall i :: 0 <= i < |r| ==> r[i] == Leaf(leaves[i].path, [values[i]])
  {
    seq(|leaves|, i requires 0 <= i < |leaves| => Leaf(leaves[i].path, [values[i]]))
  }

  /** The leaves of what one entry becomes. */
  lemma HeadOfChosen<V>(e: Entry<V>, values: seq<V>)
    requires |values| == |Head(e)|
    requires e.tree.Dict? ==> Leaves(Chosen(e.tree.entries, values), []) == Singles(Leaves(e.tree.entries, []), values)
    ensures Leaves(ChosenHead(e, values), []) == Singles(Head(e), values)
  {
    if values != [] {
      var h := ChosenHead(e, values);
      assert h[1..] == [];
      LeavesCons(h, []);
      assert Leaves(h, []) == Head(h[0]) + [] == Head(h[0]);
      hide Leaves, Chosen;
    }
  }

  lemma {:induction false} LeavesAppend<V>(a: seq<Entry<V>>, b: seq<Entry<V>>)
    ensures Leaves(a + b, []) == Leaves(a, []) + Leaves(b, [])
    decreases |a|
  {
    if a == [] {
      assert a + b == b && Leaves(a, []) == [] && [] + Leaves(b, []) == Leaves(b, []);
    } else {
      assert (a + b)[1..] == a[1..] + b && (a + b)[0] == a[0];
      LeavesAppend(a[1..], b);
      LeavesCons(a + b, []);
      LeavesCons(a, []);
      assert Head(a[0]) + (Leaves(a[1..], []) + Leaves(b, [])) == Head(a[0]) + Leaves(a[1..], []) + Leaves(b, []);
    }
  }

  lemma SinglesAppend<V>(a: seq<Leaf<V>>, b: seq<Leaf<V>>, values: seq<V>)
    requires |values| == |a| + |b|
    ensures Singles(a + b, values) == Singles(a, values[..|a|]) + Singles(b, values[|a|..])
  {
  }

  /** The leaves of a combination are the grid's own paths, each with the one value picked for it. */
  lemma {:induction false} LeavesOfChosen<V>(entries: seq<Entry<V>>, values: seq<V>)
    requires |values| == |Leaves(entries, [])|
    ensures Leaves(Chosen(entries, values), []) == Singles(Leaves(entries, []), values)
    decreases entries
  {
    if entries != [] {
      var e, rest, n := entries[0], entries[1..], |Head(entries[0])|;
      ChosenCons(entries, values);
      if e.tree.Dict? {
        LeavesOfChosen(e.tree.entries, values[..n]);
      }
      hide *;
      LeavesCons(entries, []);
      HeadOfChosen(e, values[..n]);
      LeavesOfChosen(rest, values[n..]);
      LeavesAppend(ChosenHead(e, values[..n]), Chosen(rest, values[n..]));
      SinglesAppend(Head(e), Leaves(rest, []), values);
    }
  }

  /** Rebuilding the grid's leaves with one value each never fails and gives the grid's own tree with the values in place,
      so exactly its leaf paths, in order, with one candidate each. */
  lemma CombinationHasGridPaths<V>(entries: seq<Entry<V>>, values: seq<V>)
    requires Keyed(entries) && |values| == |Leaves(entries, [])|
    ensures Paths(Zip(Leaves(entries, []), values))
    ensures var combo := NestInto([], Zip(Leaves(entries, []), values));
            && combo == Some(Chosen(entries, values))
            && |Leaves(combo.value, [])| == |values|
            && forall i :: 0 <= i < |values| ==>
                 Leaves(combo.value, [])[i] == Leaf(Leaves(entries, [])[i].path, [values[i]])
  {
    NoneLacking(entries);
    NestIsChosen([], entries, values);
    hide *;
    assert [] + Chosen(entries, values) == Chosen(entries, values);
    LeavesOfChosen(entries, values);
  }
}
