/** Maps kept as text: comma-separated entries "key:value". */
module StringMaps {
  import opened Texts

  function Entry(k: string, v: string): string {
    k + ":" + v
  }

  function KeyOf(item: string): string {
    Split(item, ':')[0]
  }

  predicate SameBinding(item: string, k: string, v: string) {
    Split(item, ':') == [k, v]
  }

  function NonEmpty(xs: seq<string>): seq<string> {
    if xs == [] then [] else if xs[0] == "" then NonEmpty(xs[1..]) else [xs[0]] + NonEmpty(xs[1..])
  }

  function Replaced(xs: seq<string>, k: string, v: string): seq<string> {
    if xs == [] then []
    else [if KeyOf(xs[0]) == k then Entry(k, v) else xs[0]] + Replaced(xs[1..], k, v)
  }

  function Dropped(xs: seq<string>, k: string): seq<string> {
    if xs == [] then []
    else if KeyOf(xs[0]) == k then Dropped(xs[1..], k)
    else [xs[0]] + Dropped(xs[1..], k)
  }

  predicate HasKey(xs: seq<string>, k: string) {
    exists i :: 0 <= i < |xs| && KeyOf(xs[i]) == k
  }

  predicate HasBinding(xs: seq<string>, k: string, v: string) {
    exists i :: 0 <= i < |xs| && SameBinding(xs[i], k, v)
  }

  predicate HasPrefix(s: string, p: string) {
    p <= s
  }

  function Items(m: string): seq<string> {
    NonEmpty(Split(m, ','))
  }

  function AddedResource(k: string, v: string, m: string): (string, bool) {
    if m == "" then (Entry(k, v), true)
    else if HasBinding(Items(m), k, v) then (m, false)
    else
      var r := Join(Replaced(Items(m), k, v), ",");
      if HasKey(Items(m), k) then (r, true) else (r + "," + Entry(k, v), true)
  }

  function DeletedKey(k: string, m: string): (string, bool) {
    if m == "" || k == "" then (m, false)
    else (Join(Dropped(Items(m), k), ","), HasKey(Items(m), k))
  }

  predicate Contains(k: string, m: string) {
    m != "" && k != "" && AnyPrefix(Split(m, ','), k + ":")
  }

  // ------------------------------------------------------------ the loops

  lemma {:induction false} NonEmptySnoc(xs: seq<string>, x: string)
    ensures NonEmpty(xs + [x]) == if x == "" then NonEmpty(xs) else NonEmpty(xs) + [x]
  {
    if xs == [] {
      assert xs + [x] == [x];
    } else {
      assert (xs + [x])[1..] == xs[1..] + [x];
      NonEmptySnoc(xs[1..], x);
    }
  }

  lemma {:induction false} ReplacedSnoc(xs: seq<string>, x: string, k: string, v: string)
    ensures Replaced(xs + [x], k, v) == Replaced(xs, k, v) + [if KeyOf(x) == k then Entry(k, v) else x]
  {
    if xs == [] {
      assert xs + [x] == [x];
    } else {
      assert (xs + [x])[1..] == xs[1..] + [x];
      ReplacedSnoc(xs[1..], x, k, v);
    }
  }

  lemma {:induction false} DroppedSnoc(xs: seq<string>, x: string, k: string)
    ensures Dropped(xs + [x], k) == if KeyOf(x) == k then Dropped(xs, k) else Dropped(xs, k) + [x]
  {
    if xs == [] {
      assert xs + [x] == [x];
    } else {
      assert (xs + [x])[1..] == xs[1..] + [x];
      DroppedSnoc(xs[1..], x, k);
    }
  }

  lemma HasSnoc(xs: seq<string>, x: string, k: string, v: string)
    ensures HasKey(xs + [x], k) <==> HasKey(xs, k) || KeyOf(x) == k
    ensures HasBinding(xs + [x], k, v) <==> HasBinding(xs, k, v) || SameBinding(x, k, v)
  {
    var r := xs + [x];
    assert r[|xs|] == x;
    assert forall i :: 0 <= i < |xs| ==> r[i] == xs[i];
  }

  lemma {:induction false} BindingInPrefix(xs: seq<string>, i: nat, k: string, v: string)
    requires i <= |xs| && HasBinding(NonEmpty(xs[..i]), k, v)
    ensures HasBinding(NonEmpty(xs), k, v)
    decreases |xs| - i
  {
    if i < |xs| {
      assert xs[..i + 1] == xs[..i] + [xs[i]];
      NonEmptySnoc(xs[..i], xs[i]);
      HasSnoc(NonEmpty(xs[..i]), xs[i], k, v);
      BindingInPrefix(xs, i + 1, k, v);
    } else {
      assert xs[..i] == xs;
    }
  }

  function Rendered(xs: seq<string>, k: string, v: string): string {
    Join(Replaced(xs, k, v), ",")
  }

  lemma RenderedSnoc(xs: seq<string>, x: string, k: string, v: string)
    ensures Rendered(xs + [x], k, v)
         == (if xs == [] then "" else Rendered(xs, k, v) + ",") + (if KeyOf(x) == k then Entry(k, v) else x)
  {
    ReplacedSnoc(xs, x, k, v);
    JoinSnoc(Replaced(xs, k, v), if KeyOf(x) == k then Entry(k, v) else x, ",");
  }

  /** One entry more in the text being written, with the new value if it has the key. */
  method AddEntry(r: string, ghost seen: seq<string>, first: bool, item: string, k: string, v: string) returns (r': string)
    requires r == Rendered(seen, k, v) && (first <==> seen == [])
    ensures r' == Rendered(seen + [item], k, v)
  {
    RenderedSnoc(seen, item, k, v);
    r' := if first then "" else r + ",";
    r' := r' + if Split(item, ':')[0] == k then Entry(k, v) else item;
  }

  method AddResourceToMap(k: string, v: string, m: string) returns (r: string, changed: bool)
    ensures (r, changed) == AddedResource(k, v, m)
  {
    if |m| == 0 {
      return k + ":" + v, true;
    }
    r := "";
    var first, existing := true, false;
    var marr := Split(m, ',');
    ghost var seen: seq<string> := [];
    for i := 0 to |marr|
      invariant seen == NonEmpty(marr[..i])
      invariant !HasBinding(seen, k, v)
      invariant existing <==> HasKey(seen, k)
      invariant first <==> seen == []
      invariant r == Rendered(seen, k, v)
    {
      assert marr[..i + 1] == marr[..i] + [marr[i]];
      NonEmptySnoc(marr[..i], marr[i]);
      if |marr[i]| == 0 {
        continue;
      }
      HasSnoc(seen, marr[i], k, v);
      var kvs := Split(marr[i], ':');
      if kvs[0] == k {
        if |kvs| == 2 && kvs[1] == v {
          assert HasBinding(Items(m), k, v) by {
            assert kvs == [k, v];
            BindingInPrefix(marr, i + 1, k, v);
          }
          return m, false;
        }
        existing := true;
      }
      r := AddEntry(r, seen, first, marr[i], k, v);
      first := false;
      seen := seen + [marr[i]];
    }
    assert marr[..|marr|] == marr;
    if existing {
      return r, true;
    }
    return r + "," + Entry(k, v), true;
  }

  /** The text without a key after one entry more. */
  lemma DroppedTextSnoc(xs: seq<string>, x: string, k: string)
    ensures HasKey(xs + [x], k) <==> HasKey(xs, k) || KeyOf(x) == k
    ensures Dropped(xs + [x], k) == [] <==> Dropped(xs, k) == [] && KeyOf(x) == k
    ensures Join(Dropped(xs + [x], k), ",")
         == if KeyOf(x) == k then Join(Dropped(xs, k), ",")
            else (if Dropped(xs, k) == [] then "" else Join(Dropped(xs, k), ",") + ",") + x
  {
    HasSnoc(xs, x, k, "");
    DroppedSnoc(xs, x, k);
    JoinSnoc(Dropped(xs, k), x, ",");
  }

  /** One entry more in the text being written, unless it has the key. */
  method KeepEntry(r: string, ghost seen: seq<string>, first: bool, item: string, k: string) returns (r': string)
    requires r == Join(Dropped(seen, k), ",") && (first <==> Dropped(seen, k) == []) && KeyOf(item) != k
    ensures r' == Join(Dropped(seen + [item], k), ",")
  {
    DroppedTextSnoc(seen, item, k);
    r' := (if first then "" else r + ",") + item;
  }

  method DeleteFromMap(k: string, m: string) returns (r: string, flag: bool)
    ensures (r, flag) == DeletedKey(k, m)
  {
    if |m| == 0 || |k| == 0 {
      return m, false;
    }
    flag := false;
    r := "";
    var first := true;
    var marr := Split(m, ',');
    ghost var seen: seq<string> := [];
    for i := 0 to |marr|
      invariant seen == NonEmpty(marr[..i])
      invariant flag <==> HasKey(seen, k)
      invariant first <==> Dropped(seen, k) == []
      invariant r == Join(Dropped(seen, k), ",")
    {
      assert marr[..i + 1] == marr[..i] + [marr[i]];
      NonEmptySnoc(marr[..i], marr[i]);
      if |marr[i]| == 0 {
        continue;
      }
      DroppedTextSnoc(seen, marr[i], k);
      var kvs := Split(marr[i], ':');
      if kvs[0] == k {
        flag := true;
      } else {
        r := KeepEntry(r, seen, first, marr[i], k);
        first := false;
      }
      seen := seen + [marr[i]];
    }
    assert marr[..|marr|] == marr;
  }

  method InMap(k: string, m: string) returns (existing: bool)
    ensures existing <==> Contains(k, m)
  {
    if |m| == 0 || |k| == 0 {
      return false;
    }
    var arr := Split(m, ',');
    var target := k + ":";
    for i := 0 to |arr|
      invariant forall j :: 0 <= j < i ==> !HasPrefix(arr[j], target)
    {
      if HasPrefix(arr[i], target) {
        return true;
      }
    }
    return false;
  }

  // ------------------------------------------------------- ordered finite maps

  type Pairs = seq<(string, string)>

  predicate Word(s: string) {
    Free(s, ',') && Free(s, ':')
  }

  function Bindings(ps: Pairs): map<string, string> {
    if ps == [] then map[] else Bindings(ps[1..])[ps[0].0 := ps[0].1]
  }

  predicate UniqueKeys(ps: Pairs) {
    ps == [] || (ps[0].0 !in Bindings(ps[1..]) && UniqueKeys(ps[1..]))
  }

  predicate Clean(ps: Pairs) {
    forall i :: 0 <= i < |ps| ==> ps[i].0 != "" && Word(ps[i].0) && Word(ps[i].1)
  }

  /** Nonempty keys, each once; neither keys nor values hold a separator. */
  predicate WellFormed(ps: Pairs) {
    Clean(ps) && UniqueKeys(ps)
  }

  function Entries(ps: Pairs): (xs: seq<string>)
    ensures |xs| == |ps|
  {
    if ps == [] then [] else [Entry(ps[0].0, ps[0].1)] + Entries(ps[1..])
  }

  function MapText(ps: Pairs): string {
    Join(Entries(ps), ",")
  }

  /** Put in place, or at the end. */
  function Put(ps: Pairs, k: string, v: string): Pairs {
    if ps == [] then [(k, v)]
    else if ps[0].0 == k then [(k, v)] + ps[1..]
    else [ps[0]] + Put(ps[1..], k, v)
  }

  function Remove(ps: Pairs, k: string): Pairs {
    if ps == [] then []
    else if ps[0].0 == k then Remove(ps[1..], k)
    else [ps[0]] + Remove(ps[1..], k)
  }

  lemma SplitEntry(k: string, v: string)
    requires Word(k) && Word(v)
    ensures Split(Entry(k, v), ':') == [k, v] && Free(Entry(k, v), ',') && Entry(k, v) != ""
  {
    SplitAtSep(k, v, ':');
    SplitFree(v, ':');
  }

  lemma {:induction false} EntriesClean(ps: Pairs)
    requires Clean(ps)
    ensures AllFree(Entries(ps), ',') && NonEmpty(Entries(ps)) == Entries(ps)
    ensures ps != [] ==> Entries(ps)[0] != ""
  {
    if ps != [] {
      SplitEntry(ps[0].0, ps[0].1);
      EntriesClean(ps[1..]);
    }
  }

  /** A map text determines its entries. */
  lemma ItemsOfText(ps: Pairs)
    requires Clean(ps) && ps != []
    ensures MapText(ps) != "" && Split(MapText(ps), ',') == Entries(ps) && Items(MapText(ps)) == Entries(ps)
  {
    EntriesClean(ps);
    SplitJoin(Entries(ps), ',');
    JoinNonEmpty(Entries(ps), ",");
  }

  lemma HasCons(x: string, xs: seq<string>, k: string, v: string)
    ensures HasKey([x] + xs, k) <==> KeyOf(x) == k || HasKey(xs, k)
    ensures HasBinding([x] + xs, k, v) <==> SameBinding(x, k, v) || HasBinding(xs, k, v)
  {
    var r := [x] + xs;
    assert r[0] == x;
    assert forall i :: 0 <= i < |xs| ==> r[i + 1] == xs[i];
    assert forall i :: 0 < i < |r| ==> r[i] == xs[i - 1];
  }

  lemma {:induction false} HasOnText(ps: Pairs, k: string, v: string)
    requires Clean(ps)
    ensures HasKey(Entries(ps), k) <==> k in Bindings(ps)
    ensures HasBinding(Entries(ps), k, v) <==> (k, v) in ps
  {
    if ps != [] {
      SplitEntry(ps[0].0, ps[0].1);
      HasOnText(ps[1..], k, v);
      HasCons(Entry(ps[0].0, ps[0].1), Entries(ps[1..]), k, v);
      assert [ps[0].0, ps[0].1] == [k, v] <==> ps[0] == (k, v) by {
        assert [ps[0].0, ps[0].1][0] == ps[0].0 && [ps[0].0, ps[0].1][1] == ps[0].1;
      }
      assert ps == [ps[0]] + ps[1..];
    }
  }

  lemma {:induction false} ReplaceAbsent(ps: Pairs, k: string, v: string)
    requires Clean(ps) && k !in Bindings(ps)
    ensures Replaced(Entries(ps), k, v) == Entries(ps) && Put(ps, k, v) == ps + [(k, v)]
    ensures Entries(ps + [(k, v)]) == Entries(ps) + [Entry(k, v)]
    ensures Remove(ps, k) == ps && Remove(ps + [(k, v)], k) == ps
  {
    if ps == [] {
      assert ps + [(k, v)] == [(k, v)];
      assert Entries([(k, v)]) == [Entry(k, v)];
    } else {
      SplitEntry(ps[0].0, ps[0].1);
      ReplaceAbsent(ps[1..], k, v);
      assert ps == [ps[0]] + ps[1..] && (ps + [(k, v)])[1..] == ps[1..] + [(k, v)];
    }
  }

  lemma {:induction false} ReplacePresent(ps: Pairs, k: string, v: string)
    requires Clean(ps) && UniqueKeys(ps) && k in Bindings(ps)
    ensures Replaced(Entries(ps), k, v) == Entries(Put(ps, k, v))
  {
    SplitEntry(ps[0].0, ps[0].1);
    var r := Put(ps, k, v);
    if ps[0].0 == k {
      ReplaceAbsent(ps[1..], k, v);
      assert r[1..] == ps[1..];
    } else {
      ReplacePresent(ps[1..], k, v);
      assert r[1..] == Put(ps[1..], k, v);
    }
  }

  lemma {:induction false} DroppedIsRemove(ps: Pairs, k: string)
    requires Clean(ps)
    ensures Dropped(Entries(ps), k) == Entries(Remove(ps, k))
  {
    if ps != [] {
      SplitEntry(ps[0].0, ps[0].1);
      DroppedIsRemove(ps[1..], k);
      if ps[0].0 != k {
        assert Remove(ps, k)[1..] == Remove(ps[1..], k);
      }
    }
  }

  /** Adding is map update that keeps the order; it changes nothing iff the binding is there. */
  lemma AddedIsPut(ps: Pairs, k: string, v: string)
    requires WellFormed(ps)
    ensures AddedResource(k, v, MapText(ps))
         == if (k, v) in ps then (MapText(ps), false) else (MapText(Put(ps, k, v)), true)
  {
    if ps == [] {
      assert Entries([(k, v)]) == [Entry(k, v)];
    } else {
      ItemsOfText(ps);
      HasOnText(ps, k, v);
      if k in Bindings(ps) {
        ReplacePresent(ps, k, v);
      } else {
        ReplaceAbsent(ps, k, v);
        JoinSnoc(Entries(ps), Entry(k, v), ",");
      }
    }
  }

  lemma DeletedIsRemove(ps: Pairs, k: string)
    requires WellFormed(ps) && k != ""
    ensures DeletedKey(k, MapText(ps)) == (MapText(Remove(ps, k)), k in Bindings(ps))
  {
    if ps != [] {
      ItemsOfText(ps);
      HasOnText(ps, k, "");
      DroppedIsRemove(ps, k);
    }
  }

  predicate AnyPrefix(xs: seq<string>, p: string) {
    exists i :: 0 <= i < |xs| && HasPrefix(xs[i], p)
  }

  lemma AnyPrefixCons(x: string, xs: seq<string>, p: string)
    ensures AnyPrefix([x] + xs, p) <==> HasPrefix(x, p) || AnyPrefix(xs, p)
  {
    var r := [x] + xs;
    assert r[0] == x;
    assert forall i :: 0 <= i < |xs| ==> r[i + 1] == xs[i];
    assert forall i :: 0 < i < |r| ==> r[i] == xs[i - 1];
  }

  lemma {:induction false} PrefixOnText(ps: Pairs, k: string)
    requires Clean(ps) && Word(k)
    ensures AnyPrefix(Entries(ps), k + ":") <==> k in Bindings(ps)
  {
    if ps != [] {
      PrefixIsKey(ps[0].0, ps[0].1, k);
      PrefixOnText(ps[1..], k);
      AnyPrefixCons(Entry(ps[0].0, ps[0].1), Entries(ps[1..]), k + ":");
    }
  }

  lemma ContainsIsBound(ps: Pairs, k: string)
    requires WellFormed(ps) && k != "" && Word(k)
    ensures Contains(k, MapText(ps)) <==> k in Bindings(ps)
  {
    if ps != [] {
      ItemsOfText(ps);
      PrefixOnText(ps, k);
    }
  }

  lemma PrefixIsKey(key: string, v: string, k: string)
    requires Word(key) && Word(k)
    ensures HasPrefix(Entry(key, v), k + ":") <==> key == k
  {
    var e := Entry(key, v);
    assert e[|key|] == ':' && e[..|key|] == key;
    if k + ":" <= e {
      assert e[|k|] == (k + ":")[|k|] == ':';
      assert e[..|k|] == (k + ":")[..|k|] == k;
    }
    if key == k {
      assert e == (k + ":") + v;
    }
  }

  lemma {:induction false} PutIsUpdate(ps: Pairs, k: string, v: string)
    ensures Bindings(Put(ps, k, v)) == Bindings(ps)[k := v]
    ensures UniqueKeys(ps) ==> UniqueKeys(Put(ps, k, v))
  {
    if ps != [] {
      var r := Put(ps, k, v);
      if ps[0].0 == k {
        assert r[1..] == ps[1..];
      } else {
        assert r[1..] == Put(ps[1..], k, v);
        PutIsUpdate(ps[1..], k, v);
      }
    }
  }

  lemma {:induction false} RemoveIsRemoval(ps: Pairs, k: string)
    ensures Bindings(Remove(ps, k)) == Bindings(ps) - {k}
    ensures UniqueKeys(ps) ==> UniqueKeys(Remove(ps, k))
  {
    if ps != [] {
      RemoveIsRemoval(ps[1..], k);
      if ps[0].0 != k {
        assert Remove(ps, k)[1..] == Remove(ps[1..], k);
      }
    }
  }

  lemma {:induction false} StaysClean(ps: Pairs, k: string, v: string)
    requires Clean(ps) && k != "" && Word(k) && Word(v)
    ensures Clean(Put(ps, k, v)) && Clean(Remove(ps, k))
  {
    if ps != [] {
      StaysClean(ps[1..], k, v);
    }
  }

  lemma {:induction false} PutPresent(ps: Pairs, k: string, v: string)
    requires UniqueKeys(ps) && (k, v) in ps
    ensures Put(ps, k, v) == ps && k in Bindings(ps)
  {
    assert ps == [ps[0]] + ps[1..];
    if ps[0] != (k, v) {
      PutPresent(ps[1..], k, v);
    }
  }

  /** On well-formed text every operation is the operation on finite maps, and the
      result is well formed again. */
  lemma RefinesFiniteMap(ps: Pairs, k: string, v: string)
    requires WellFormed(ps) && k != "" && Word(k) && Word(v)
    ensures WellFormed(Put(ps, k, v)) && Bindings(Put(ps, k, v)) == Bindings(ps)[k := v]
    ensures WellFormed(Remove(ps, k)) && Bindings(Remove(ps, k)) == Bindings(ps) - {k}
    ensures AddedResource(k, v, MapText(ps)) == (MapText(Put(ps, k, v)), (k, v) !in ps)
    ensures DeletedKey(k, MapText(ps)) == (MapText(Remove(ps, k)), k in Bindings(ps))
    ensures Contains(k, MapText(ps)) <==> k in Bindings(ps)
  {
    PutIsUpdate(ps, k, v);
    RemoveIsRemoval(ps, k);
    StaysClean(ps, k, v);
    AddedIsPut(ps, k, v);
    DeletedIsRemove(ps, k);
    ContainsIsBound(ps, k);
    if (k, v) in ps {
      PutPresent(ps, k, v);
    }
  }

  /** Deleting a freshly added key restores the text. */
  lemma DeleteUndoesAdd(ps: Pairs, k: string, v: string)
    requires WellFormed(ps) && k != "" && Word(k) && Word(v) && k !in Bindings(ps)
    ensures DeletedKey(k, AddedResource(k, v, MapText(ps)).0) == (MapText(ps), true)
  {
    RefinesFiniteMap(ps, k, v);
    RefinesFiniteMap(Put(ps, k, v), k, v);
    ReplaceAbsent(ps, k, v);
  }

  // ---------------------------------------------------------------------- runs

  datatype MapCall = Add(key: string, value: string) | Delete(key: string)

  predicate WordsOnly(c: MapCall) {
    c.key != "" && Word(c.key) && (c.Add? ==> Word(c.value))
  }

  function RunText(calls: seq<MapCall>, m: string): string {
    if calls == [] then m
    else if calls[0].Add? then RunText(calls[1..], AddedResource(calls[0].key, calls[0].value, m).0)
    else RunText(calls[1..], DeletedKey(calls[0].key, m).0)
  }

  function RunPairs(calls: seq<MapCall>, ps: Pairs): Pairs {
    if calls == [] then ps
    else if calls[0].Add? then RunPairs(calls[1..], Put(ps, calls[0].key, calls[0].value))
    else RunPairs(calls[1..], Remove(ps, calls[0].key))
  }

  function RunMap(calls: seq<MapCall>, m: map<string, string>): map<string, string> {
    if calls == [] then m
    else if calls[0].Add? then RunMap(calls[1..], m[calls[0].key := calls[0].value])
    else RunMap(calls[1..], m - {calls[0].key})
  }

  /** Any sequence of calls on well-formed text leaves well-formed text of the finite map the
      same sequence of updates and removals leaves. */
  lemma {:induction false} EveryRunIsAMap(calls: seq<MapCall>, ps: Pairs)
    requires WellFormed(ps) && forall i :: 0 <= i < |calls| ==> WordsOnly(calls[i])
    ensures var after := RunPairs(calls, ps);
      WellFormed(after) && RunText(calls, MapText(ps)) == MapText(after) && Bindings(after) == RunMap(calls, Bindings(ps))
    decreases |calls|
  {
    if calls != [] {
      var c := calls[0];
      RefinesFiniteMap(ps, c.key, if c.Add? then c.value else "");
      EveryRunIsAMap(calls[1..], if c.Add? then Put(ps, c.key, c.value) else Remove(ps, c.key));
    }
  }

  // ------------------------------------------------------ where an entry goes

  predicate NoneHas(ps: Pairs, k: string) {
    forall i :: 0 <= i < |ps| ==> ps[i].0 != k
  }

  lemma {:induction false} PutAround(a: Pairs, k: string, w: string, v: string, b: Pairs)
    requires NoneHas(a, k)
    ensures Put(a, k, v) == a + [(k, v)]
    ensures Put(a + [(k, w)] + b, k, v) == a + [(k, v)] + b
  {
    var ps := a + [(k, w)] + b;
    if a == [] {
      assert ps[1..] == b;
    } else {
      PutAround(a[1..], k, w, v, b);
      assert ps[1..] == a[1..] + [(k, w)] + b;
    }
  }

  lemma {:induction false} RemoveAbsent(b: Pairs, k: string)
    requires NoneHas(b, k)
    ensures Remove(b, k) == b
  {
    if b != [] {
      assert b[0].0 != k;
      RemoveAbsent(b[1..], k);
    }
  }

  lemma {:induction false} RemoveAround(a: Pairs, k: string, w: string, b: Pairs)
    requires NoneHas(a, k) && NoneHas(b, k)
    ensures Remove(a + [(k, w)] + b, k) == a + b
  {
    var ps := a + [(k, w)] + b;
    if a == [] {
      assert ps[1..] == b;
      RemoveAbsent(b, k);
    } else {
      RemoveAround(a[1..], k, w, b);
      assert a[0].0 != k && ps[0] == a[0];
      assert ps[1..] == a[1..] + [(k, w)] + b;
      assert a + b == [a[0]] + (a[1..] + b);
    }
  }

  lemma {:induction false} EntriesSnoc(ps: Pairs, k: string, v: string)
    ensures Entries(ps + [(k, v)]) == Entries(ps) + [Entry(k, v)]
  {
    if ps == [] {
      assert ps + [(k, v)] == [(k, v)];
    } else {
      EntriesSnoc(ps[1..], k, v);
      assert (ps + [(k, v)])[1..] == ps[1..] + [(k, v)];
    }
  }

  lemma TextSnoc(ps: Pairs, k: string, v: string)
    ensures MapText(ps + [(k, v)]) == (if ps == [] then "" else MapText(ps) + ",") + (k + ":" + v)
  {
    EntriesSnoc(ps, k, v);
    JoinSnoc(Entries(ps), Entry(k, v), ",");
    assert Entry(k, v) == k + ":" + v;
  }

  /** A key that is new goes to the end of the text, after a comma if there is a text. */
  lemma NewKeyGoesLast(ps: Pairs, k: string, v: string)
    requires WellFormed(ps) && NoneHas(ps, k)
    ensures AddedResource(k, v, MapText(ps))
         == ((if ps == [] then "" else MapText(ps) + ",") + (k + ":" + v), true)
  {
    AddedIsPut(ps, k, v);
    PutAround(ps, k, v, v, []);
    TextSnoc(ps, k, v);
  }

  /** A key that is there keeps its place. */
  lemma OldKeyStays(a: Pairs, k: string, w: string, v: string, b: Pairs)
    requires WellFormed(a + [(k, w)] + b) && NoneHas(a, k) && NoneHas(b, k) && w != v
    ensures AddedResource(k, v, MapText(a + [(k, w)] + b)) == (MapText(a + [(k, v)] + b), true)
    ensures DeletedKey(k, MapText(a + [(k, w)] + b)) == (MapText(a + b), true)
  {
    var ps := a + [(k, w)] + b;
    assert ps[|a|] == (k, w);
    assert (k, v) !in ps;
    AddedIsPut(ps, k, v);
    PutAround(a, k, w, v, b);
    DeletedIsRemove(ps, k);
    RemoveAround(a, k, w, b);
    BoundIfIn(ps, |a|);
  }

  lemma {:induction false} BoundIfIn(ps: Pairs, i: nat)
    requires i < |ps|
    ensures ps[i].0 in Bindings(ps)
  {
    if i > 0 {
      BoundIfIn(ps[1..], i - 1);
    }
  }

  /** An empty piece goes away with the first change. */
  lemma EmptyPiecesVanish(ps: Pairs, k: string, v: string)
    requires WellFormed(ps) && ps != [] && k != ""
    ensures (k, v) !in ps ==> AddedResource(k, v, "," + MapText(ps)) == AddedResource(k, v, MapText(ps))
    ensures (k, v) in ps ==> AddedResource(k, v, "," + MapText(ps)) == ("," + MapText(ps), false)
    ensures DeletedKey(k, "," + MapText(ps)) == DeletedKey(k, MapText(ps))
  {
    var t := MapText(ps);
    SplitAtSep("", t, ',');
    assert "" + [','] + t == "," + t;
    assert Split("," + t, ',') == [""] + Split(t, ',');
    assert ([""] + Split(t, ','))[1..] == Split(t, ',');
    ItemsOfText(ps);
    HasOnText(ps, k, v);
    AddedIsPut(ps, k, v);
  }
}
