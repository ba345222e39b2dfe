/**
 The structural diff between two workflow revisions.  JSON objects are maps, so key order
 is not observed; paths are lists of keys.
 */
module Compare {
  import opened Wrappers
  import opened JsonValues

  /** One reported difference; None is `undefined`, an absent key. */
  datatype Diff = Diff(path: seq<string>, left: Option<Json>, right: Option<Json>)

  function Get(j: Record, k: string): Option<Json> {
    if k in j.fields then Some(j.fields[k]) else None
  }

  /** Both sides hold an object here, so the diff goes inside. */
  predicate Nested(l: Record, r: Record, k: string) {
    k in l.fields && k in r.fields && l.fields[k].Object? && r.fields[k].Object?
  }

  /** What is to be reported: at the first place where the sides stop being both objects, if they differ. */
  ghost predicate InDiff(l: Record, r: Record, d: Diff)
    decreases |d.path|
  {
    && d.path != []
    && var k := d.path[0];
       if Nested(l, r, k) then InDiff(l.fields[k], r.fields[k], d.(path := d.path[1..]))
       else |d.path| == 1 && d.left == Get(l, k) && d.right == Get(r, k) && d.left != d.right
  }

  /** `diffObject`: the reported differences are exactly those, each once, below the given prefix. */
  method DiffObject(l: Record, r: Record, prefix: seq<string>) returns (out: seq<Diff>)
    ensures forall d :: d in out <==> (prefix <= d.path && InDiff(l, r, d.(path := d.path[|prefix|..])))
    ensures forall i, j | 0 <= i < j < |out| :: out[i] != out[j]
    decreases l
  {
    out := [];
    var keys := l.fields.Keys + r.fields.Keys;
    var todo := keys;
    while todo != {}
      invariant todo <= keys
      invariant Reported(l, r, prefix, keys - todo, out)
    {
      var k :| k in todo;
      ghost var done := keys - todo;
      todo := todo - {k};
      assert keys - todo == done + {k};
      if Nested(l, r, k) {
        var inner := DiffObject(l.fields[k], r.fields[k], prefix + [k]);
        ReportNested(l, r, prefix, done, out, k, inner);
        out := out + inner;
      } else if Get(l, k) != Get(r, k) {
        ReportHere(l, r, prefix, done, out, k);
        out := out + [Diff(prefix + [k], Get(l, k), Get(r, k))];
      } else {
        ReportNothing(l, r, prefix, done, out, k);
      }
    }
    AllReported(l, r, prefix, out);
  }

  // ------------------------------------------------------------ the loop of diffObject

  ghost predicate Wanted(l: Record, r: Record, prefix: seq<string>, keys: set<string>, d: Diff) {
    && |prefix| < |d.path| && prefix <= d.path && d.path[|prefix|] in keys
    && InDiff(l, r, d.(path := d.path[|prefix|..]))
  }

  ghost predicate Reported(l: Record, r: Record, prefix: seq<string>, keys: set<string>, out: seq<Diff>) {
    && (forall d :: d in out <==> Wanted(l, r, prefix, keys, d))
    && forall i, j | 0 <= i < j < |out| :: out[i] != out[j]
  }

  lemma Distinct(a: seq<Diff>, b: seq<Diff>)
    requires (forall i, j | 0 <= i < j < |a| :: a[i] != a[j]) && (forall i, j | 0 <= i < j < |b| :: b[i] != b[j])
    requires forall d | d in b :: d !in a
    ensures forall i, j | 0 <= i < j < |a + b| :: (a + b)[i] != (a + b)[j]
  {
    forall i, j | 0 <= i < j < |a + b| ensures (a + b)[i] != (a + b)[j] {
      if i < |a| <= j { assert a[i] in a && b[j - |a|] in b; }
    }
  }

  lemma WantedInside(l: Record, r: Record, prefix: seq<string>, k: string, d: Diff)
    requires Nested(l, r, k)
    ensures Wanted(l, r, prefix, {k}, d) <==>
      (prefix + [k] <= d.path && InDiff(l.fields[k], r.fields[k], d.(path := d.path[|prefix| + 1..])))
  {
    if prefix <= d.path && |prefix| < |d.path| {
      assert d.path[|prefix|..][1..] == d.path[|prefix| + 1..];
      assert d.path[|prefix|] == k <==> prefix + [k] <= d.path;
    }
  }

  lemma ReportNested(l: Record, r: Record, prefix: seq<string>, keys: set<string>, out: seq<Diff>, k: string,
                     inner: seq<Diff>)
    requires Reported(l, r, prefix, keys, out) && k !in keys && Nested(l, r, k)
    requires forall d :: d in inner <==>
      (prefix + [k] <= d.path && InDiff(l.fields[k], r.fields[k], d.(path := d.path[|prefix + [k]|..])))
    requires forall i, j | 0 <= i < j < |inner| :: inner[i] != inner[j]
    ensures Reported(l, r, prefix, keys + {k}, out + inner)
  {
    forall d ensures d in inner <==> Wanted(l, r, prefix, {k}, d) {
      WantedInside(l, r, prefix, k, d);
    }
    hide InDiff;
    Distinct(out, inner);
  }

  lemma ReportHere(l: Record, r: Record, prefix: seq<string>, keys: set<string>, out: seq<Diff>, k: string)
    requires Reported(l, r, prefix, keys, out) && k !in keys && !Nested(l, r, k) && Get(l, k) != Get(r, k)
    ensures Reported(l, r, prefix, keys + {k}, out + [Diff(prefix + [k], Get(l, k), Get(r, k))])
  {
    var mine := Diff(prefix + [k], Get(l, k), Get(r, k));
    assert mine.path[|prefix|..] == [k];
    assert Wanted(l, r, prefix, {k}, mine);
    forall d | Wanted(l, r, prefix, {k}, d) ensures d == mine {
      var inner := d.(path := d.path[|prefix|..]);
      assert inner.path[0] == k && |inner.path| == 1;
      assert d.path == prefix + [k];
    }
    forall d ensures Wanted(l, r, prefix, keys + {k}, d) <==>
      Wanted(l, r, prefix, keys, d) || Wanted(l, r, prefix, {k}, d) {}
    Distinct(out, [mine]);
  }

  lemma ReportNothing(l: Record, r: Record, prefix: seq<string>, keys: set<string>, out: seq<Diff>, k: string)
    requires Reported(l, r, prefix, keys, out) && k !in keys && !Nested(l, r, k) && Get(l, k) == Get(r, k)
    ensures Reported(l, r, prefix, keys + {k}, out)
  {
  }

  lemma AllReported(l: Record, r: Record, prefix: seq<string>, out: seq<Diff>)
    requires Reported(l, r, prefix, l.fields.Keys + r.fields.Keys, out)
    ensures forall d :: d in out <==> (prefix <= d.path && InDiff(l, r, d.(path := d.path[|prefix|..])))
  {
    forall d: Diff | prefix <= d.path && InDiff(l, r, d.(path := d.path[|prefix|..]))
      ensures |prefix| < |d.path| && d.path[|prefix|] in l.fields.Keys + r.fields.Keys
    {
      assert d.path[|prefix|..][0] == d.path[|prefix|];
    }
  }

  // ------------------------------------------------------------ what is reported

  /** The value at a path, None where a key is absent or the way leads through something that is no object. */
  function At(j: Json, path: seq<string>): Option<Json>
    decreases |path|
  {
    if path == [] then Some(j)
    else if j.Object? && path[0] in j.fields then At(j.fields[path[0]], path[1..])
    else None
  }

  predicate ObjectAt(j: Json, path: seq<string>) {
    At(j, path).Some? && At(j, path).value.Object?
  }

  /**
   A difference is reported exactly where the values at its path differ, are not both objects, and
   every place on the way there is an object on both sides; it carries the two values.
   */
  lemma {:induction false} ReportedPlaces(l: Record, r: Record, d: Diff)
    ensures InDiff(l, r, d) <==>
      && d.path != [] && (forall n | 0 < n < |d.path| :: ObjectAt(l, d.path[..n]) && ObjectAt(r, d.path[..n]))
      && d.left == At(l, d.path) && d.right == At(r, d.path) && d.left != d.right
      && !(ObjectAt(l, d.path) && ObjectAt(r, d.path))
    decreases |d.path|
  {
    if d.path != [] {
      var k, rest := d.path[0], d.path[1..];
      AtFirst(l, d.path);
      AtFirst(r, d.path);
      if Nested(l, r, k) {
        ReportedPlaces(l.fields[k], r.fields[k], d.(path := rest));
        if rest == [] {
          assert d.path[..1] == d.path;
        } else {
          assert d.path[..1] == [k] && ObjectAt(l, [k]) && ObjectAt(r, [k]);
          forall n | 0 < n < |rest| ensures d.path[..n + 1][1..] == rest[..n] && d.path[..n + 1][0] == k {}
          forall n | 1 < n < |d.path| ensures d.path[..n][1..] == rest[..n - 1] && d.path[..n][0] == k {}
        }
      } else if rest != [] {
        assert d.path[..1] == [k];
      }
    }
  }

  lemma AtFirst(j: Record, path: seq<string>)
    requires path != []
    ensures ObjectAt(j, path[..1]) <==> path[0] in j.fields && j.fields[path[0]].Object?
    ensures |path| == 1 ==> At(j, path) == Get(j, path[0])
  {
    var k := path[0];
    assert path[..1] == [k] && [k][1..] == [];
    if k in j.fields { assert At(j.fields[k], []) == Some(j.fields[k]) == At(j, [k]); }
    if |path| == 1 { assert path == [k]; }
  }

  // ------------------------------------------------------------ applying a diff

  function WithField(j: Record, k: string, v: Option<Json>): Record {
    if v.Some? then Object(j.fields[k := v.value]) else Object(j.fields - {k})
  }

  /** Puts the reported right-hand value at the reported place. */
  function SetAt(j: Record, path: seq<string>, v: Option<Json>): Record
    requires path != []
    decreases |path|
  {
    var k := path[0];
    if |path| == 1 then WithField(j, k, v)
    else if k in j.fields && j.fields[k].Object? then WithField(j, k, Some(SetAt(j.fields[k], path[1..], v)))
    else j
  }

  ghost predicate IsDiffOf(l: Record, r: Record, ds: seq<Diff>) {
    && (forall d :: d in ds <==> InDiff(l, r, d))
    && forall i, j | 0 <= i < j < |ds| :: ds[i] != ds[j]
  }

  function Patch(j: Record, ds: seq<Diff>): Record
    requires forall d | d in ds :: d.path != []
    decreases |ds|
  {
    if ds == [] then j else Patch(SetAt(j, ds[0].path, ds[0].right), ds[1..])
  }

  /** A path determines what is reported there. */
  lemma {:induction false} OnePerPath(l: Record, r: Record, a: Diff, b: Diff)
    requires InDiff(l, r, a) && InDiff(l, r, b) && a.path == b.path
    ensures a == b
    decreases |a.path|
  {
    if Nested(l, r, a.path[0]) {
      var k := a.path[0];
      OnePerPath(l.fields[k], r.fields[k], a.(path := a.path[1..]), b.(path := b.path[1..]));
    }
  }

  /** Applying one difference removes exactly that one. */
  lemma {:induction false} SetAtSettles(l: Record, r: Record, d: Diff, e: Diff)
    requires InDiff(l, r, d)
    ensures InDiff(SetAt(l, d.path, d.right), r, e) <==> InDiff(l, r, e) && e != d
    decreases |d.path|
  {
    var k := d.path[0];
    var l' := SetAt(l, d.path, d.right);
    if Nested(l, r, k) {
      var inner := d.(path := d.path[1..]);
      assert inner.path != [];
      assert l'.fields[k] == SetAt(l.fields[k], inner.path, d.right);
      if e.path != [] && e.path[0] == k {
        SetAtSettles(l.fields[k], r.fields[k], inner, e.(path := e.path[1..]));
        assert e == d <==> e.(path := e.path[1..]) == inner by {
          assert e.path == [k] + e.path[1..] && d.path == [k] + d.path[1..];
        }
      } else if e.path != [] {
        OtherKey(l, l', r, k, e);
      }
    } else {
      assert d.path == [k];
      if e.path != [] && e.path[0] == k {
        NothingLeft(l', r, k, e);
        assert InDiff(l, r, e) ==> e.path == [k];
      } else if e.path != [] {
        OtherKey(l, l', r, k, e);
      }
    }
  }

  /** Changing one key does not affect what is reported below another. */
  lemma OtherKey(l: Record, l': Record, r: Record, k: string, e: Diff)
    requires e.path != [] && e.path[0] != k && Get(l, e.path[0]) == Get(l', e.path[0])
    ensures InDiff(l, r, e) <==> InDiff(l', r, e)
  {
  }

  /** Where the two sides hold the same value nothing is reported. */
  lemma NothingLeft(l: Record, r: Record, k: string, e: Diff)
    requires e.path != [] && e.path[0] == k && Get(l, k) == Get(r, k)
    ensures !InDiff(l, r, e)
  {
    if Nested(l, r, k) { EqualHasNoDiff(l.fields[k], e.(path := e.path[1..])); }
  }

  lemma {:induction false} EqualHasNoDiff(j: Record, e: Diff)
    ensures !InDiff(j, j, e)
    decreases |e.path|
  {
    if e.path != [] && Nested(j, j, e.path[0]) {
      EqualHasNoDiff(j.fields[e.path[0]], e.(path := e.path[1..]));
    }
  }

  lemma {:induction false} NoDiffMeansEqual(l: Record, r: Record)
    requires forall d :: !InDiff(l, r, d)
    ensures l == r
    decreases l
  {
    forall k | k in l.fields.Keys + r.fields.Keys ensures Get(l, k) == Get(r, k) {
      if Nested(l, r, k) {
        forall d ensures !InDiff(l.fields[k], r.fields[k], d) {
          var outer := d.(path := [k] + d.path);
          assert outer.path[1..] == d.path;
          assert !InDiff(l, r, outer);
        }
        NoDiffMeansEqual(l.fields[k], r.fields[k]);
      } else {
        assert !InDiff(l, r, Diff([k], Get(l, k), Get(r, k)));
      }
    }
    forall k ensures (k in l.fields <==> k in r.fields) && (k in l.fields ==> l.fields[k] == r.fields[k]) {
      assert k in l.fields.Keys + r.fields.Keys ==> Get(l, k) == Get(r, k);
    }
    assert l.fields == r.fields;
  }

  // ------------------------------------------------------------ the theorems about objects

  /** Round trip: patching the left side, in any order of the differences, gives the right side. */
  lemma {:induction false} PatchGivesRight(l: Record, r: Record, ds: seq<Diff>)
    requires IsDiffOf(l, r, ds)
    ensures (forall d | d in ds :: d.path != []) && Patch(l, ds) == r
    decreases |ds|
  {
    if ds == [] {
      NoDiffMeansEqual(l, r);
    } else {
      var d, rest := ds[0], ds[1..];
      assert d in ds;
      var l' := SetAt(l, d.path, d.right);
      forall e ensures e in rest <==> InDiff(l', r, e) {
        SetAtSettles(l, r, d, e);
        assert e in ds <==> e == d || e in rest;
        if e in rest { var i :| 0 <= i < |rest| && rest[i] == e; assert ds[i + 1] == e; }
      }
      PatchGivesRight(l', r, rest);
    }
  }

  /** The diff is empty exactly when the sides are equal. */
  lemma EmptyIffEqual(l: Record, r: Record, ds: seq<Diff>)
    requires IsDiffOf(l, r, ds)
    ensures ds == [] <==> l == r
  {
    if l == r {
      if ds != [] {
        assert ds[0] in ds;
        EqualHasNoDiff(l, ds[0]);
      }
    }
    if ds == [] { NoDiffMeansEqual(l, r); }
  }

  /** Swapping the sides swaps left and right in every difference. */
  lemma {:induction false} SwapSides(l: Record, r: Record, d: Diff)
    ensures InDiff(l, r, d) <==> InDiff(r, l, Diff(d.path, d.right, d.left))
    decreases |d.path|
  {
    if d.path != [] && Nested(l, r, d.path[0]) {
      SwapSides(l.fields[d.path[0]], r.fields[d.path[0]], d.(path := d.path[1..]));
    }
  }

  // ------------------------------------------------------------ collections

  /** `new Map(xs.map(x => [key(x), x]))`: the last element with a key wins. */
  function Keyed(xs: seq<Record>, key: Record -> string): (m: map<string, Record>)
    ensures forall k :: k in m <==> exists x | x in xs :: key(x) == k
    ensures forall k | k in m :: m[k] in xs && key(m[k]) == k
  {
    if xs == [] then map[]
    else
      var before, last := Keyed(xs[..|xs| - 1], key), xs[|xs| - 1];
      assert forall x :: x in xs <==> x in xs[..|xs| - 1] || x == last;
      before[key(last) := last]
  }

  lemma {:induction false} LastWins(xs: seq<Record>, key: Record -> string, i: nat)
    requires i < |xs| && forall j | i < j < |xs| :: key(xs[j]) != key(xs[i])
    ensures key(xs[i]) in Keyed(xs, key) && Keyed(xs, key)[key(xs[i])] == xs[i]
    decreases |xs|
  {
    if i < |xs| - 1 { LastWins(xs[..|xs| - 1], key, i); }
  }

  datatype Changed = Changed(key: string, diffs: seq<Diff>)
  datatype CollectionDiff = CollectionDiff(added: seq<Record>, removed: seq<Record>, changed: seq<Changed>)

  ghost predicate IsCollectionDiff(l: map<string, Record>, r: map<string, Record>, c: CollectionDiff,
                                   key: Record -> string)
  {
    && (forall x :: x in c.added <==> exists k | k in r && k !in l :: r[k] == x)
    && (forall x :: x in c.removed <==> exists k | k in l && k !in r :: l[k] == x)
    && (forall ch | ch in c.changed ::
      ch.key in l && ch.key in r && ch.diffs != [] && IsDiffOf(l[ch.key], r[ch.key], ch.diffs))
    && (forall k | k in l && k in r && l[k] != r[k] :: exists ch | ch in c.changed :: ch.key == k)
    && (forall i, j | 0 <= i < j < |c.changed| :: c.changed[i].key != c.changed[j].key)
    && Once(c.added) && Once(c.removed)
  }

  /** No element is listed twice. */
  predicate Once(xs: seq<Record>) {
    forall i, j | 0 <= i < j < |xs| :: xs[i] != xs[j]
  }

  lemma OnceMore(xs: seq<Record>, x: Record)
    requires Once(xs) && x !in xs
    ensures Once(xs + [x])
  {
  }

  /** So far `xs` lists exactly the elements of `m` whose keys are done and not in `other`, each once. */
  ghost predicate Collected(m: map<string, Record>, other: map<string, Record>, todo: set<string>,
                            key: Record -> string, xs: seq<Record>)
  {
    && (forall x :: x in xs <==> exists k | k in m && k !in todo && k !in other :: m[k] == x)
    && Once(xs) && forall x | x in xs :: key(x) !in todo
  }

  lemma CollectMore(m: map<string, Record>, other: map<string, Record>, todo: set<string>, key: Record -> string,
                    xs: seq<Record>, k: string)
    requires KeyedBy(m, key) && k in m && k in todo && Collected(m, other, todo, key, xs)
    ensures Collected(m, other, todo - {k}, key, if k in other then xs else xs + [m[k]])
  {
    if k !in other {
      OnceMore(xs, m[k]);
      assert forall x :: x in xs + [m[k]] <==> x in xs || x == m[k];
    }
  }

  /** So far `changed` reports exactly the common keys that are done and differ, each once. */
  ghost predicate Compared(l: map<string, Record>, r: map<string, Record>, todo: set<string>, changed: seq<Changed>) {
    && (forall ch | ch in changed ::
          ch.key in l && ch.key in r && ch.key !in todo && ch.diffs != [] && IsDiffOf(l[ch.key], r[ch.key], ch.diffs))
    && (forall k | k in l && k in r && k !in todo && l[k] != r[k] :: exists ch | ch in changed :: ch.key == k)
    && forall i, j | 0 <= i < j < |changed| :: changed[i].key != changed[j].key
  }

  lemma CompareMore(l: map<string, Record>, r: map<string, Record>, todo: set<string>, changed: seq<Changed>,
                    k: string, diffs: seq<Diff>)
    requires k in l && k in r && k in todo && Compared(l, r, todo, changed)
    requires IsDiffOf(l[k], r[k], diffs) && (diffs == [] <==> l[k] == r[k])
    ensures Compared(l, r, todo - {k}, if diffs == [] then changed else changed + [Changed(k, diffs)])
  {
    hide IsDiffOf;
    if diffs != [] {
      assert forall ch :: ch in changed + [Changed(k, diffs)] <==> ch in changed || ch == Changed(k, diffs);
    }
  }

  /** `diffCollection`: what was added, removed and changed, by key. */
  method DiffCollection(left: seq<Record>, right: seq<Record>, key: Record -> string) returns (c: CollectionDiff)
    ensures IsCollectionDiff(Keyed(left, key), Keyed(right, key), c, key)
  {
    var l, r := Keyed(left, key), Keyed(right, key);
    assert KeyedBy(l, key) && KeyedBy(r, key);
    hide IsDiffOf, Keyed, Collected, Compared, KeyedBy, Once;
    var added, changed := RightPass(l, r, key);
    var removed: seq<Record> := [];
    var todo := l.Keys;
    NothingCollected(l, r, key);
    while todo != {}
      invariant todo <= l.Keys && Collected(l, r, todo, key, removed)
    {
      var k :| k in todo;
      CollectMore(l, r, todo, key, removed, k);
      if k !in r { removed := removed + [l[k]]; }
      todo := todo - {k};
    }
    c := CollectionDiff(added, removed, changed);
    AllCollected(l, r, c, key);
  }

  lemma NothingCollected(m: map<string, Record>, other: map<string, Record>, key: Record -> string)
    ensures Collected(m, other, m.Keys, key, [])
  {
  }

  lemma AllCollected(l: map<string, Record>, r: map<string, Record>, c: CollectionDiff, key: Record -> string)
    requires Collected(r, l, {}, key, c.added) && Collected(l, r, {}, key, c.removed) && Compared(l, r, {}, c.changed)
    ensures IsCollectionDiff(l, r, c, key)
  {
    hide IsDiffOf;
  }

  /** The loop over the right-hand side: new elements, and differences inside common ones. */
  method RightPass(l: map<string, Record>, r: map<string, Record>, key: Record -> string)
    returns (added: seq<Record>, changed: seq<Changed>)
    requires KeyedBy(r, key)
    ensures Collected(r, l, {}, key, added) && Compared(l, r, {}, changed)
  {
    added, changed := [], [];
    var todo := r.Keys;
    NothingCollected(r, l, key);
    assert Compared(l, r, todo, changed);
    hide IsDiffOf, Collected, Compared, KeyedBy, Once;
    while todo != {}
      invariant todo <= r.Keys && Collected(r, l, todo, key, added) && Compared(l, r, todo, changed)
    {
      var k :| k in todo;
      CollectMore(r, l, todo, key, added, k);
      if k !in l {
        added := added + [r[k]];
        ComparedElsewhere(l, r, todo, changed, k);
      } else {
        var diffs := DiffElement(l[k], r[k]);
        CompareMore(l, r, todo, changed, k, diffs);
        if diffs != [] { changed := changed + [Changed(k, diffs)]; }
      }
      todo := todo - {k};
    }
  }

  lemma ComparedElsewhere(l: map<string, Record>, r: map<string, Record>, todo: set<string>, changed: seq<Changed>,
                          k: string)
    requires k !in l && Compared(l, r, todo, changed)
    ensures Compared(l, r, todo - {k}, changed)
  {
    hide IsDiffOf;
  }

  /** The differences of two elements with the same key. */
  method DiffElement(l: Record, r: Record) returns (diffs: seq<Diff>)
    ensures IsDiffOf(l, r, diffs) && (diffs == [] <==> l == r)
  {
    diffs := DiffObject(l, r, []);
    DiffBelowRoot(l, r, [], diffs);
    EmptyIffEqual(l, r, diffs);
  }

  lemma DiffBelowRoot(l: Record, r: Record, prefix: seq<string>, ds: seq<Diff>)
    requires prefix == []
    requires forall d :: d in ds <==> (prefix <= d.path && InDiff(l, r, d.(path := d.path[|prefix|..])))
    requires forall i, j | 0 <= i < j < |ds| :: ds[i] != ds[j]
    ensures IsDiffOf(l, r, ds)
  {
    forall d: Diff ensures d.(path := d.path[0..]) == d {
      assert d.path[0..] == d.path;
    }
  }

  // ------------------------------------------------------------ the theorems about collections

  ghost function PatchedAt(l: map<string, Record>, c: CollectionDiff, k: string): Record
    requires k in l
    requires forall ch | ch in c.changed :: forall d | d in ch.diffs :: d.path != []
  {
    if ch :| ch in c.changed && ch.key == k then Patch(l[k], ch.diffs) else l[k]
  }

  /** Removes what was removed, patches what was changed, inserts what was added. */
  ghost function PatchCollection(l: map<string, Record>, c: CollectionDiff, key: Record -> string): map<string, Record>
    requires forall ch | ch in c.changed :: forall d | d in ch.diffs :: d.path != []
  {
    (map k | k in Remaining(l, c, key) :: PatchedAt(l, c, k)) + (map k | k in Added(c, key) :: AddedAs(c, key, k))
  }

  ghost function Remaining(l: map<string, Record>, c: CollectionDiff, key: Record -> string): (ks: set<string>)
    ensures ks <= l.Keys
  {
    set k | k in l && forall x | x in c.removed :: key(x) != k
  }

  ghost function Added(c: CollectionDiff, key: Record -> string): set<string> {
    set x | x in c.added :: key(x)
  }

  ghost function AddedAs(c: CollectionDiff, key: Record -> string, k: string): Record
    requires k in Added(c, key)
  {
    var x :| x in c.added && key(x) == k; x
  }

  ghost predicate KeyedBy(m: map<string, Record>, key: Record -> string) {
    forall k | k in m :: key(m[k]) == k
  }

  lemma ChangesHavePaths(l: map<string, Record>, r: map<string, Record>, c: CollectionDiff, key: Record -> string)
    requires IsCollectionDiff(l, r, c, key)
    ensures forall ch | ch in c.changed :: forall d | d in ch.diffs :: d.path != []
  {
    forall ch | ch in c.changed ensures forall d | d in ch.diffs :: d.path != [] {
      PatchGivesRight(l[ch.key], r[ch.key], ch.diffs);
    }
  }

  /** Round trip: the diff of two keyed collections patches the left one into the right one. */
  lemma CollectionRoundTrip(l: map<string, Record>, r: map<string, Record>, c: CollectionDiff, key: Record -> string)
    requires KeyedBy(l, key) && KeyedBy(r, key) && IsCollectionDiff(l, r, c, key)
    ensures (forall ch | ch in c.changed :: forall d | d in ch.diffs :: d.path != []) && PatchCollection(l, c, key) == r
  {
    ChangesHavePaths(l, r, c, key);
    hide IsDiffOf, IsCollectionDiff, Added, AddedAs, PatchedAt, Patch, Remaining, KeyedBy, PatchCollection;
    AddedKeys(l, r, c, key);
    RemovedKeys(l, r, c, key);
    forall k | k in l && k in r ensures PatchedAt(l, c, k) == r[k] {
      CommonPatched(l, r, c, key, k);
    }
    Assembled(l, r, c, key);
  }

  lemma Assembled(l: map<string, Record>, r: map<string, Record>, c: CollectionDiff, key: Record -> string)
    requires forall ch | ch in c.changed :: forall d | d in ch.diffs :: d.path != []
    requires Added(c, key) == r.Keys - l.Keys && Remaining(l, c, key) == l.Keys * r.Keys
    requires forall k | k in Added(c, key) :: AddedAs(c, key, k) == r[k]
    requires forall k | k in l && k in r :: PatchedAt(l, c, k) == r[k]
    ensures PatchCollection(l, c, key) == r
  {
    hide Added, AddedAs, PatchedAt, Patch, Remaining;
  }

  lemma AddedKeys(l: map<string, Record>, r: map<string, Record>, c: CollectionDiff, key: Record -> string)
    requires KeyedBy(r, key) && IsCollectionDiff(l, r, c, key)
    ensures Added(c, key) == r.Keys - l.Keys
    ensures forall k | k in Added(c, key) :: AddedAs(c, key, k) == r[k]
  {
    hide IsDiffOf;
    forall k ensures k in Added(c, key) <==> k in r && k !in l {
      if k in r && k !in l { assert r[k] in c.added; }
    }
    forall k | k in Added(c, key) ensures AddedAs(c, key, k) == r[k] {
      var x := AddedAs(c, key, k);
      var j :| j in r && j !in l && r[j] == x;
    }
  }

  lemma RemovedKeys(l: map<string, Record>, r: map<string, Record>, c: CollectionDiff, key: Record -> string)
    requires KeyedBy(l, key) && IsCollectionDiff(l, r, c, key)
    ensures Remaining(l, c, key) == l.Keys * r.Keys
  {
    hide IsDiffOf;
    forall k | k in l ensures (exists x | x in c.removed :: key(x) == k) <==> k !in r {
      if k !in r { assert l[k] in c.removed; }
    }
  }

  lemma CommonPatched(l: map<string, Record>, r: map<string, Record>, c: CollectionDiff, key: Record -> string,
                      k: string)
    requires IsCollectionDiff(l, r, c, key) && k in l && k in r
    requires forall ch | ch in c.changed :: forall d | d in ch.diffs :: d.path != []
    ensures PatchedAt(l, c, k) == r[k]
  {
    forall ch | ch in c.changed && ch.key == k ensures Patch(l[k], ch.diffs) == r[k] {
      PatchGivesRight(l[k], r[k], ch.diffs);
    }
  }

  /** Nothing is reported exactly when the keyed collections are equal. */
  lemma CollectionEmptyIffEqual(l: map<string, Record>, r: map<string, Record>, c: CollectionDiff,
                                key: Record -> string)
    requires KeyedBy(l, key) && KeyedBy(r, key) && IsCollectionDiff(l, r, c, key)
    ensures c.added == [] && c.removed == [] && c.changed == [] <==> l == r
  {
    assert forall k | k in r && k !in l :: r[k] in c.added;
    assert forall k | k in l && k !in r :: l[k] in c.removed;
    assert (c.added == [] && c.removed == [] && c.changed == []) ==> l == r by {
      assert c.added == [] && c.removed == [] ==> l.Keys == r.Keys;
    }
    HasElement(c.added);
    HasElement(c.removed);
    HasElement(c.changed);
    forall ch | ch in c.changed ensures l[ch.key] != r[ch.key] {
      EmptyIffEqual(l[ch.key], r[ch.key], ch.diffs);
    }
  }

  lemma HasElement<T>(s: seq<T>)
    ensures s == [] || s[0] in s
  {
  }

  ghost predicate ReportsKey(c: CollectionDiff, k: string) {
    exists ch | ch in c.changed :: ch.key == k
  }

  /** Swapping the sides swaps added with removed, and left with right inside every changed element. */
  lemma CollectionSwap(l: map<string, Record>, r: map<string, Record>, c: CollectionDiff, b: CollectionDiff,
                       key: Record -> string)
    requires IsCollectionDiff(l, r, c, key) && IsCollectionDiff(r, l, b, key)
    ensures forall x :: (x in c.added <==> x in b.removed) && (x in c.removed <==> x in b.added)
    ensures forall k :: ReportsKey(c, k) <==> ReportsKey(b, k)
    ensures forall x, y, d | x in c.changed && y in b.changed && x.key == y.key ::
      d in x.diffs <==> Diff(d.path, d.right, d.left) in y.diffs
  {
    forall x, y, d | x in c.changed && y in b.changed && x.key == y.key
      ensures d in x.diffs <==> Diff(d.path, d.right, d.left) in y.diffs
    {
      SwapSides(l[x.key], r[x.key], d);
    }
    hide IsDiffOf, ReportsKey;
    forall k ensures ReportsKey(c, k) <==> k in l && k in r && l[k] != r[k] {
      ChangedKeys(l, r, c, key, k);
    }
    forall k ensures ReportsKey(b, k) <==> k in l && k in r && l[k] != r[k] {
      ChangedKeys(r, l, b, key, k);
    }
  }

  lemma ChangedKeys(l: map<string, Record>, r: map<string, Record>, c: CollectionDiff, key: Record -> string, k: string)
    requires IsCollectionDiff(l, r, c, key)
    ensures ReportsKey(c, k) <==> k in l && k in r && l[k] != r[k]
  {
    if ch :| ch in c.changed && ch.key == k {
      EmptyIffEqual(l[k], r[k], ch.diffs);
    }
  }

  /** With unique keys nothing is lost on the way to the keyed form. */
  lemma UniqueKeysKeepAll(xs: seq<Record>, key: Record -> string)
    requires forall i, j | 0 <= i < j < |xs| :: key(xs[i]) != key(xs[j])
    ensures forall x :: x in xs <==> key(x) in Keyed(xs, key) && Keyed(xs, key)[key(x)] == x
    ensures KeyedBy(Keyed(xs, key), key)
  {
    forall x | x in xs ensures Keyed(xs, key)[key(x)] == x {
      var y := Keyed(xs, key)[key(x)];
      var i :| 0 <= i < |xs| && xs[i] == x;
      var j :| 0 <= j < |xs| && xs[j] == y;
    }
  }
}
