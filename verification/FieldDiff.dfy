/** The field-level difference of two nodes, as shown to the user who approves a change. */
module FieldDiff {
  import opened Helpers

  datatype Json = Null | Bool(b: bool) | Num(n: int) | Str(s: string) | List(items: seq<Json>) | Obj(fields: map<string, Json>)

  // Python holds True and 1 for equal, and False and 0, also inside lists and dictionaries.
  function Canon(j: Json): Json {
    match j
    case Bool(b) => Num(if b then 1 else 0)
    case List(items) => List(seq(|items|, i requires 0 <= i < |items| => Canon(items[i])))
    case Obj(fields) => Obj(map k | k in fields :: Canon(fields[k]))
    case _ => j
  }

  // Python's equality.
  predicate Same(a: Json, b: Json) {
    Canon(a) == Canon(b)
  }

  /* ----- Python's equality, case by case ----- */

  // The number a truth value or a number stands for.
  function Denoted(j: Json): Option<int> {
    match j
    case Bool(b) => Some(if b then 1 else 0)
    case Num(n) => Some(n)
    case _ => None
  }

  // Lists are compared item by item, dictionaries field by field, truth values and numbers as numbers; all
  // else is equal only to itself.
  ghost predicate Equal(a: Json, b: Json) {
    match (a, b)
    case (List(xs), List(ys)) => |xs| == |ys| && forall i :: 0 <= i < |xs| ==> Equal(xs[i], ys[i])
    case (Obj(m), Obj(v)) => m.Keys == v.Keys && forall k :: k in m && k in v ==> Equal(m[k], v[k])
    case _ => a == b || (Denoted(a).Some? && Denoted(a) == Denoted(b))
  }

  lemma ListsSameIff(xs: seq<Json>, ys: seq<Json>)
    ensures Same(List(xs), List(ys)) <==> |xs| == |ys| && forall i :: 0 <= i < |xs| ==> Same(xs[i], ys[i])
  {
    var cx, cy := Canon(List(xs)).items, Canon(List(ys)).items;
    assert forall i :: 0 <= i < |xs| ==> cx[i] == Canon(xs[i]);
    assert forall i :: 0 <= i < |ys| ==> cy[i] == Canon(ys[i]);
  }

  lemma ObjectsSameIff(m: map<string, Json>, v: map<string, Json>)
    ensures Same(Obj(m), Obj(v)) <==> m.Keys == v.Keys && forall k :: k in m && k in v ==> Same(m[k], v[k])
  {
    var cm, cv := Canon(Obj(m)).fields, Canon(Obj(v)).fields;
    assert cm.Keys == m.Keys && cv.Keys == v.Keys;
    if m.Keys == v.Keys {
      FieldwiseSame(m, v);
    }
  }

  // Neither a list nor an object is the same as anything of another shape; the rest is the same exactly if it
  // is equal or denotes one number.
  lemma OthersSameIff(a: Json, b: Json)
    requires !(a.List? && b.List?) && !(a.Obj? && b.Obj?)
    ensures Same(a, b) <==>
              !a.List? && !b.List? && !a.Obj? && !b.Obj? && (a == b || (Denoted(a).Some? && Denoted(a) == Denoted(b)))
  {
  }

  // What the comparison holds for the same is exactly what Python holds for equal, at every depth.
  lemma {:induction false} SameIffEqual(a: Json, b: Json)
    ensures Same(a, b) <==> Equal(a, b)
    decreases a
  {
    match (a, b) {
      case (List(xs), List(ys)) =>
        ListsSameIff(xs, ys);
        forall i | 0 <= i < |xs| && i < |ys|
          ensures Same(xs[i], ys[i]) <==> Equal(xs[i], ys[i])
        {
          SameIffEqual(xs[i], ys[i]);
        }
      case (Obj(m), Obj(v)) =>
        ObjectsSameIff(m, v);
        forall k | k in m && k in v
          ensures Same(m[k], v[k]) <==> Equal(m[k], v[k])
        {
          SameIffEqual(m[k], v[k]);
        }
      case _ =>
        OthersSameIff(a, b);
    }
  }

  // The new value, except that whatever is the same to Python stays as it was.
  function Merged(b: Json, a: Json): Json {
    if Same(b, a) then b
    else if b.Obj? && a.Obj? then Obj(map k | k in a.fields :: if k in b.fields then Merged(b.fields[k], a.fields[k]) else a.fields[k])
    else a
  }

  // Nothing that is the same to Python has changed.
  ghost predicate Distinguished(b: Json, a: Json) {
    if Same(b, a) then b == a
    else b.Obj? && a.Obj? ==> forall k :: k in b.fields && k in a.fields ==> Distinguished(b.fields[k], a.fields[k])
  }

  lemma {:induction false} MergedIsSame(b: Json, a: Json)
    ensures Same(Merged(b, a), a)
  {
    if !Same(b, a) && b.Obj? && a.Obj? {
      forall k | k in a.fields
        ensures Canon(Merged(b, a).fields[k]) == Canon(a.fields[k])
      {
        if k in b.fields {
          MergedIsSame(b.fields[k], a.fields[k]);
        }
      }
      assert Canon(Merged(b, a)).fields == Canon(a).fields;
    }
  }

  lemma {:induction false} MergedIsNewIff(b: Json, a: Json)
    ensures Merged(b, a) == a <==> Distinguished(b, a)
  {
    if !Same(b, a) && b.Obj? && a.Obj? {
      var m := Merged(b, a).fields;
      forall k | k in a.fields && k in b.fields
        ensures m[k] == a.fields[k] <==> Distinguished(b.fields[k], a.fields[k])
      {
        MergedIsNewIff(b.fields[k], a.fields[k]);
      }
      if forall k :: k in b.fields && k in a.fields ==> Distinguished(b.fields[k], a.fields[k]) {
        assert m == a.fields;
      }
    }
  }

  // `before` and `after` are None where the field is absent, which is not the same as null.
  datatype Change = Change(path: seq<string>, before: Option<Json>, after: Option<Json>)

  /* ----- Reading and writing at a path ----- */

  function At(j: Json, path: seq<string>): Option<Json> {
    if path == [] then Some(j)
    else if j.Obj? && path[0] in j.fields then At(j.fields[path[0]], path[1..])
    else None
  }

  // Set or delete the field at the path.
  function Put(j: Json, path: seq<string>, v: Option<Json>): Json {
    if path == [] then (if v.Some? then v.value else j)
    else if !j.Obj? then j
    else if |path| == 1 then Obj(if v.Some? then j.fields[path[0] := v.value] else j.fields - {path[0]})
    else if path[0] in j.fields then Obj(j.fields[path[0] := Put(j.fields[path[0]], path[1..], v)])
    else j
  }

  // Write the after-values one by one; the first `depth` keys of the paths lead to j itself.
  function Patch(j: Json, changes: seq<Change>, depth: nat): Json
    requires forall c :: c in changes ==> |c.path| >= depth
    decreases |changes|
  {
    if changes == [] then j
    else
      assert changes[0] in changes;
      Patch(Put(j, changes[0].path[depth..], changes[0].after), changes[1..], depth)
  }

  lemma {:induction false} PatchConcat(j: Json, xs: seq<Change>, ys: seq<Change>, depth: nat)
    requires forall c :: c in xs + ys ==> |c.path| >= depth
    ensures (forall c :: c in xs ==> c in xs + ys) && (forall c :: c in ys ==> c in xs + ys)
    ensures Patch(j, xs + ys, depth) == Patch(Patch(j, xs, depth), ys, depth)
    decreases |xs|
  {
    if xs == [] {
      assert xs + ys == ys;
    } else {
      assert (xs + ys)[1..] == xs[1..] + ys;
      PatchConcat(Put(j, xs[0].path[depth..], xs[0].after), xs[1..], ys, depth);
    }
  }

  // Changes that all lie under the field k change nothing but that field.
  lemma {:induction false} PatchUnder(fields: map<string, Json>, k: string, changes: seq<Change>, depth: nat)
    requires k in fields
    requires forall c :: c in changes ==> |c.path| > depth + 1 && c.path[depth] == k
    ensures Patch(Obj(fields), changes, depth) == Obj(fields[k := Patch(fields[k], changes, depth + 1)])
    decreases |changes|
  {
    if changes == [] {
      assert fields[k := fields[k]] == fields;
    } else {
      var c := changes[0];
      assert c in changes && c.path[depth..][0] == k && c.path[depth..][1..] == c.path[depth + 1..];
      var inner := Put(fields[k], c.path[depth + 1..], c.after);
      PatchUnder(fields[k := inner], k, changes[1..], depth);
      assert fields[k := inner][k := Patch(inner, changes[1..], depth + 1)] == fields[k := Patch(inner, changes[1..], depth + 1)];
    }
  }

  /* ----- What an exact difference is ----- */

  predicate Differ(b: Option<Json>, a: Option<Json>) {
    b.None? != a.None? || (b.Some? && !Same(b.value, a.value))
  }

  // The change says what is there before and after, and it is a difference.
  predicate RealChange(b: Json, a: Json, c: Change, depth: nat) {
    |c.path| >= depth && c.before == At(b, c.path[depth..]) && c.after == At(a, c.path[depth..]) && Differ(c.before, c.after)
  }

  // No path leads to or through another change.
  ghost predicate PrefixFree(changes: seq<Change>) {
    forall i, j :: 0 <= i < |changes| && 0 <= j < |changes| && i != j ==> !(changes[i].path <= changes[j].path)
  }

  // Writing the after-values of these changes gives m.
  ghost predicate Exact(b: Json, a: Json, m: Json, changes: seq<Change>, depth: nat) {
    (forall c :: c in changes ==> RealChange(b, a, c, depth)) && PrefixFree(changes) && Patch(b, changes, depth) == m
  }

  /* ----- The walk ----- */

  // The fields of b, with those in `done` already as in m.
  function Mixed(b: map<string, Json>, m: map<string, Json>, done: set<string>): map<string, Json> {
    map k | k in b.Keys + m.Keys && (if k in done then k in m else k in b) :: if k in done then m[k] else b[k]
  }

  // All changes lie under the path, below one of the fields in `done`.
  ghost predicate Below(path: seq<string>, done: set<string>, changes: seq<Change>) {
    forall c :: c in changes ==> |c.path| > |path| && c.path[..|path|] == path && c.path[|path|] in done
  }

  ghost predicate Walked(b: Json, a: Json, m: Json, path: seq<string>, done: set<string>, changes: seq<Change>)
    requires b.Obj? && a.Obj? && m.Obj?
  {
    Below(path, done, changes) &&
    (forall c :: c in changes ==> RealChange(b, a, c, |path|)) && PrefixFree(changes) &&
    Patch(b, changes, |path|) == Obj(Mixed(b.fields, m.fields, done))
  }

  // The changes of one field k, on top of those in `done`.
  ghost predicate FieldDone(b: Json, a: Json, m: Json, path: seq<string>, done: set<string>, k: string, more: seq<Change>)
    requires b.Obj? && a.Obj? && m.Obj?
  {
    Below(path, {k}, more) && PrefixFree(more) && (forall c :: c in more ==> RealChange(b, a, c, |path|)) &&
    Patch(Obj(Mixed(b.fields, m.fields, done)), more, |path|) == Obj(Mixed(b.fields, m.fields, done + {k}))
  }

  lemma WalkedStep(b: Json, a: Json, m: Json, path: seq<string>, done: set<string>, changes: seq<Change>, k: string, more: seq<Change>)
    requires b.Obj? && a.Obj? && m.Obj? && Walked(b, a, m, path, done, changes) && k !in done
    requires FieldDone(b, a, m, path, done, k, more)
    ensures Walked(b, a, m, path, done + {k}, changes + more)
  {
    var all := changes + more;
    PatchConcat(b, changes, more, |path|);
    forall i, j | 0 <= i < |all| && 0 <= j < |all| && i != j
      ensures !(all[i].path <= all[j].path)
    {
      assert i < |changes| ==> all[i] in changes;
      assert j < |changes| ==> all[j] in changes;
      assert i >= |changes| ==> all[i] in more;
      assert j >= |changes| ==> all[j] in more;
    }
  }

  // Every change path starts with this path.
  ghost predicate Under(path: seq<string>, changes: seq<Change>) {
    forall c :: c in changes ==> |path| <= |c.path| && c.path[..|path|] == path
  }

  lemma UnderField(path: seq<string>, k: string, c: Change)
    requires |path| + 1 <= |c.path| && c.path[..|path| + 1] == path + [k]
    ensures c.path[..|path|] == path && c.path[|path|] == k
    ensures c.path[|path|..][0] == k && c.path[|path|..][1..] == c.path[|path| + 1..]
  {
    assert c.path[..|path|] == c.path[..|path| + 1][..|path|];
    assert c.path[|path|] == c.path[..|path| + 1][|path|];
  }

  // The changes inside one field are changes of the whole.
  lemma LiftField(b: Json, a: Json, m: Json, path: seq<string>, done: set<string>, k: string, more: seq<Change>)
    requires b.Obj? && a.Obj? && m.Obj? && k in b.fields && k in a.fields && k in m.fields && k !in done
    requires Under(path + [k], more) && Exact(b.fields[k], a.fields[k], m.fields[k], more, |path| + 1)
    requires forall c :: c in more ==> |c.path| > |path| + 1
    ensures FieldDone(b, a, m, path, done, k, more)
  {
    forall c | c in more
      ensures c.path[..|path|] == path && c.path[|path|] == k && RealChange(b, a, c, |path|)
    {
      UnderField(path, k, c);
    }
    var mixed := Mixed(b.fields, m.fields, done);
    PatchUnder(mixed, k, more, |path|);
    assert Mixed(b.fields, m.fields, done + {k}) == mixed[k := m.fields[k]];
  }

  lemma PatchOne(j: Json, c: Change, depth: nat)
    requires |c.path| >= depth
    ensures Patch(j, [c], depth) == Put(j, c.path[depth..], c.after)
  {
    assert [c][1..] == [];
  }

  // A single change that sets or deletes the field itself.
  lemma LiftLeaf(b: Json, a: Json, m: Json, path: seq<string>, done: set<string>, k: string, c: Change)
    requires b.Obj? && a.Obj? && m.Obj? && k in b.fields.Keys + a.fields.Keys && k !in done && c.path == path + [k]
    requires k in m.fields <==> k in a.fields
    requires k in m.fields ==> m.fields[k] == a.fields[k]
    requires c.before == (if k in b.fields then Some(b.fields[k]) else None)
    requires c.after == (if k in a.fields then Some(a.fields[k]) else None)
    requires Differ(c.before, c.after)
    ensures FieldDone(b, a, m, path, done, k, [c])
  {
    assert c.path[|path|..] == [k];
    AtField(b, k);
    AtField(a, k);
    MixedLeaf(b.fields, m.fields, done, k);
    PatchOne(Obj(Mixed(b.fields, m.fields, done)), c, |path|);
  }

  // A field that is left alone.
  lemma LeftAlone(b: Json, a: Json, m: Json, path: seq<string>, done: set<string>, k: string)
    requires b.Obj? && a.Obj? && m.Obj? && k in b.fields && k in m.fields && m.fields[k] == b.fields[k] && k !in done
    ensures FieldDone(b, a, m, path, done, k, [])
  {
    assert Mixed(b.fields, m.fields, done) == Mixed(b.fields, m.fields, done + {k});
  }

  lemma AtField(j: Json, k: string)
    requires j.Obj?
    ensures At(j, [k]) == if k in j.fields then Some(j.fields[k]) else None
  {
    assert [k][1..] == [];
  }

  lemma MixedLeaf(b: map<string, Json>, m: map<string, Json>, done: set<string>, k: string)
    requires k !in done && k in b.Keys + m.Keys
    ensures Put(Obj(Mixed(b, m, done)), [k], if k in m then Some(m[k]) else None) == Obj(Mixed(b, m, done + {k}))
  {
    var mixed, next := Mixed(b, m, done), Mixed(b, m, done + {k});
    if k in m {
      assert next == mixed[k := m[k]];
    } else {
      assert next == mixed - {k};
    }
  }

  // The changes of one field, or none.
  method WalkField(b: Json, a: Json, path: seq<string>, ghost done: set<string>, k: string) returns (more: seq<Change>)
    requires b.Obj? && a.Obj? && !Same(b, a) && k in b.fields.Keys + a.fields.Keys && k !in done
    ensures FieldDone(b, a, Merged(b, a), path, done, k, more)
    decreases b, 0
  {
    ghost var m := Merged(b, a);
    if k !in b.fields {
      more := [Change(path + [k], None, Some(a.fields[k]))];
      LiftLeaf(b, a, m, path, done, k, more[0]);
    } else if k !in a.fields {
      more := [Change(path + [k], Some(b.fields[k]), None)];
      LiftLeaf(b, a, m, path, done, k, more[0]);
    } else if !Same(b.fields[k], a.fields[k]) {
      more := Walk(b.fields[k], a.fields[k], path + [k]);
      if b.fields[k].Obj? && a.fields[k].Obj? {
        LiftField(b, a, m, path, done, k, more);
      } else {
        LiftLeaf(b, a, m, path, done, k, more[0]);
      }
    } else {
      more := [];
      assert m.fields[k] == Merged(b.fields[k], a.fields[k]) == b.fields[k];
      LeftAlone(b, a, m, path, done, k);
    }
  }

  // The changes between two different values, as paths below `path`: exact, and never empty.
  method Walk(b: Json, a: Json, path: seq<string>) returns (changes: seq<Change>)
    requires !Same(b, a)
    ensures Exact(b, a, Merged(b, a), changes, |path|) && Under(path, changes) && changes != []
    ensures if b.Obj? && a.Obj? then forall c :: c in changes ==> |c.path| > |path|
            else changes == [Change(path, Some(b), Some(a))]
    decreases b, 3
  {
    if b.Obj? && a.Obj? {
      changes := WalkFields(b, a, path);
      SameUnlessChanged(b, a, changes, |path|);
    } else {
      changes := [Change(path, Some(b), Some(a))];
      assert path[|path|..] == [] && changes[1..] == [];
    }
  }

  method WalkFields(b: Json, a: Json, path: seq<string>) returns (changes: seq<Change>)
    requires b.Obj? && a.Obj? && !Same(b, a)
    ensures Exact(b, a, Merged(b, a), changes, |path|)
    ensures Below(path, b.fields.Keys + a.fields.Keys, changes)
    decreases b, 2
  {
    changes := [];
    ghost var m := Merged(b, a);
    var keys := b.fields.Keys + a.fields.Keys;
    var rest := keys;
    StartWalk(b, a, m, path);
    assert keys - rest == {};
    while rest != {}
      invariant rest <= keys && Walked(b, a, m, path, keys - rest, changes)
    {
      var k :| k in rest;
      changes := WalkOne(b, a, path, keys - rest, changes, k);
      assert keys - rest + {k} == keys - (rest - {k});
      rest := rest - {k};
    }
    assert keys - rest == keys;
    WalkedAll(b, a, m, path, keys, changes);
  }

  method WalkOne(b: Json, a: Json, path: seq<string>, ghost done: set<string>, changes0: seq<Change>, k: string)
    returns (changes: seq<Change>)
    requires b.Obj? && a.Obj? && !Same(b, a) && k in b.fields.Keys + a.fields.Keys && k !in done
    requires Walked(b, a, Merged(b, a), path, done, changes0)
    ensures Walked(b, a, Merged(b, a), path, done + {k}, changes)
    decreases b, 1
  {
    var more := WalkField(b, a, path, done, k);
    WalkedStep(b, a, Merged(b, a), path, done, changes0, k, more);
    changes := changes0 + more;
  }

  lemma StartWalk(b: Json, a: Json, m: Json, path: seq<string>)
    requires b.Obj? && a.Obj? && m.Obj?
    ensures Walked(b, a, m, path, {}, [])
  {
    assert Mixed(b.fields, m.fields, {}) == b.fields;
  }

  lemma WalkedAll(b: Json, a: Json, m: Json, path: seq<string>, done: set<string>, changes: seq<Change>)
    requires b.Obj? && a.Obj? && m.Obj? && Walked(b, a, m, path, done, changes) && b.fields.Keys + m.fields.Keys <= done
    ensures Exact(b, a, m, changes, |path|)
  {
    assert Mixed(b.fields, m.fields, done) == m.fields;
  }

  // Different values leave a change behind.
  lemma SameUnlessChanged(b: Json, a: Json, changes: seq<Change>, depth: nat)
    requires !Same(b, a) && Exact(b, a, Merged(b, a), changes, depth)
    ensures changes != []
  {
    MergedIsSame(b, a);
  }

  /* ----- Nodes ----- */

  // Type and label are null where the node has none.
  datatype Node = Node(kind: Json, caption: Json, config: Json)

  // Python's `config or {}`.
  function OrEmpty(config: Json): Json {
    if config == Null || config == Bool(false) || config == Num(0) || config == Str("") || config == List([]) || config == Obj(map[])
    then Obj(map[])
    else config
  }

  // Whatever is null, false, zero or empty counts as an empty config; every other config is shown as it is.
  lemma FalsyConfigIsEmpty(config: Json)
    ensures OrEmpty(config) == Obj(map[]) <==>
              (config.Null? || (config.Bool? && !config.b) || (config.Num? && config.n == 0) || (config.Str? && |config.s| == 0) ||
               (config.List? && |config.items| == 0) || (config.Obj? && |config.fields| == 0))
    ensures OrEmpty(config) != Obj(map[]) ==> OrEmpty(config) == config
  {
    if config.Obj? && |config.fields| == 0 {
      assert config.fields == map[];
    }
  }

  // What the user is shown.
  function View(n: Node): Json {
    Obj(map["type" := n.kind, "label" := n.caption, "config" := OrEmpty(n.config)])
  }

  function Get(n: Node, k: string): Json
    requires k == "type" || k == "label"
  {
    if k == "type" then n.kind else n.caption
  }

  lemma GetIsField(n: Node, k: string)
    requires k == "type" || k == "label"
    ensures k in View(n).fields && View(n).fields[k] == Get(n, k)
  {
  }

  // Type and label are replaced whole, unless they are the same to Python; the config is merged.
  function MergedView(before: Node, after: Node): Json {
    Obj(map["type" := Replaced(before.kind, after.kind), "label" := Replaced(before.caption, after.caption),
            "config" := Merged(OrEmpty(before.config), OrEmpty(after.config))])
  }

  function Replaced(b: Json, a: Json): Json {
    if Same(b, a) then b else a
  }

  // Type or label: one leaf entry.
  method LeafField(before: Node, after: Node, ghost done: set<string>, changes0: seq<Change>, k: string)
    returns (changes: seq<Change>)
    requires k == "type" || k == "label"
    requires Walked(View(before), View(after), MergedView(before, after), [], done, changes0) && k !in done
    ensures changes == if !Same(Get(before, k), Get(after, k))
                       then changes0 + [Change([k], Some(Get(before, k)), Some(Get(after, k)))] else changes0
    ensures Walked(View(before), View(after), MergedView(before, after), [], done + {k}, changes)
  {
    GetIsField(before, k);
    GetIsField(after, k);
    ghost var m := MergedView(before, after);
    assert k in m.fields && m.fields[k] == Replaced(Get(before, k), Get(after, k));
    var more := [];
    if !Same(Get(before, k), Get(after, k)) {
      more := [Change([k], Some(Get(before, k)), Some(Get(after, k)))];
      assert [] + [k] == [k];
      LiftLeaf(View(before), View(after), m, [], done, k, more[0]);
    } else {
      LeftAlone(View(before), View(after), m, [], done, k);
    }
    WalkedStep(View(before), View(after), m, [], done, changes0, k, more);
    changes := changes0 + more;
  }

  method ConfigField(before: Node, after: Node, ghost done: set<string>) returns (more: seq<Change>)
    requires "config" !in done
    ensures FieldDone(View(before), View(after), MergedView(before, after), [], done, "config", more)
    ensures more == [] <==> Same(OrEmpty(before.config), OrEmpty(after.config))
  {
    var b, a := OrEmpty(before.config), OrEmpty(after.config);
    ghost var m := MergedView(before, after);
    assert View(before).fields["config"] == b && View(after).fields["config"] == a && m.fields["config"] == Merged(b, a);
    if !Same(b, a) {
      more := Walk(b, a, ["config"]);
      assert [] + ["config"] == ["config"];
      if b.Obj? && a.Obj? {
        LiftField(View(before), View(after), m, [], done, "config", more);
      } else {
        LiftLeaf(View(before), View(after), m, [], done, "config", more[0]);
      }
    } else {
      more := [];
      LeftAlone(View(before), View(after), m, [], done, "config");
    }
  }

  lemma ViewsSame(before: Node, after: Node)
    ensures Same(View(before), View(after)) <==>
              Same(before.kind, after.kind) && Same(before.caption, after.caption) && Same(OrEmpty(before.config), OrEmpty(after.config))
  {
    ThreeFields(before.kind, before.caption, OrEmpty(before.config), after.kind, after.caption, OrEmpty(after.config));
  }

  const REVIEWED: set<string> := {"type", "label", "config"}

  method TypeAndLabel(before: Node, after: Node) returns (changes: seq<Change>)
    ensures Walked(View(before), View(after), MergedView(before, after), [], {"type", "label"}, changes)
    ensures changes == [] <==> Same(before.kind, after.kind) && Same(before.caption, after.caption)
  {
    StartWalk(View(before), View(after), MergedView(before, after), []);
    changes := LeafField(before, after, {}, [], "type");
    changes := LeafField(before, after, {} + {"type"}, changes, "label");
    assert {} + {"type"} + {"label"} == {"type", "label"};
  }

  // The entries of one updated node: each is a real difference, none lies inside another, writing the
  // after-values gives the new node up to Python's equality, and there are none exactly if Python sees no difference.
  method FieldChanges(before: Node, after: Node) returns (changes: seq<Change>)
    ensures Exact(View(before), View(after), MergedView(before, after), changes, 0)
    ensures changes == [] <==> Equal(View(before), View(after))
  {
    SameIffEqual(View(before), View(after));
    var kindAndCaption := TypeAndLabel(before, after);
    var config := ConfigField(before, after, {"type", "label"});
    WalkedStep(View(before), View(after), MergedView(before, after), [], {"type", "label"}, kindAndCaption, "config", config);
    changes := kindAndCaption + config;
    assert {"type", "label"} + {"config"} == REVIEWED;
    WalkedAll(View(before), View(after), MergedView(before, after), [], REVIEWED, changes);
    ViewsSame(before, after);
  }

  // What the entries give is the new node, to Python; and to everybody else exactly if no field changed into
  // another that Python holds for equal.
  lemma MergedViewIsNewIff(before: Node, after: Node)
    ensures Same(MergedView(before, after), View(after))
    ensures MergedView(before, after) == View(after) <==>
              (Same(before.kind, after.kind) ==> before.kind == after.kind) &&
              (Same(before.caption, after.caption) ==> before.caption == after.caption) &&
              Distinguished(OrEmpty(before.config), OrEmpty(after.config))
  {
    var b, a := OrEmpty(before.config), OrEmpty(after.config);
    MergedIsSame(b, a);
    MergedIsNewIff(b, a);
    ThreeFields(Replaced(before.kind, after.kind), Replaced(before.caption, after.caption), Merged(b, a), after.kind, after.caption, a);
  }

  lemma FieldwiseSame(m: map<string, Json>, v: map<string, Json>)
    requires m.Keys == v.Keys
    ensures Same(Obj(m), Obj(v)) <==> forall k :: k in m ==> Same(m[k], v[k])
  {
    var cm, cv := Canon(Obj(m)).fields, Canon(Obj(v)).fields;
    assert forall k :: k in m ==> cm[k] == Canon(m[k]) && cv[k] == Canon(v[k]);
  }

  lemma ThreeFields(x: Json, y: Json, z: Json, x': Json, y': Json, z': Json)
    ensures var m, v := Obj(map["type" := x, "label" := y, "config" := z]), Obj(map["type" := x', "label" := y', "config" := z']);
            (m == v <==> x == x' && y == y' && z == z') && (Same(m, v) <==> Same(x, x') && Same(y, y') && Same(z, z'))
  {
    var m, v := map["type" := x, "label" := y, "config" := z], map["type" := x', "label" := y', "config" := z'];
    assert m["type"] == x && m["label"] == y && m["config"] == z;
    assert v["type"] == x' && v["label"] == y' && v["config"] == z';
    FieldwiseSame(m, v);
  }
}
