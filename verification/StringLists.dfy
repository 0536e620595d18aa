/** Comma lists: sets of items, and of numbers, kept as text. */
module StringLists {
  import opened Texts

  /** An item a list can hold and give back. */
  predicate Item(s: string) {
    s != "" && Free(s, ',')
  }

  predicate AllItems(xs: seq<string>) {
    forall i :: 0 <= i < |xs| ==> Item(xs[i])
  }

  function Text(xs: seq<string>): string {
    Join(xs, ",")
  }

  function Without<T(==,!new)>(xs: seq<T>, x: T): (r: seq<T>)
    ensures forall y :: y in r <==> y in xs && y != x
  {
    if xs == [] then [] else if xs[0] == x then Without(xs[1..], x) else [xs[0]] + Without(xs[1..], x)
  }

  predicate Distinct<T(==)>(xs: seq<T>) {
    forall i, j :: 0 <= i < j < |xs| ==> xs[i] != xs[j]
  }

  lemma {:induction false} WithoutSnoc<T(!new)>(xs: seq<T>, y: T, x: T)
    ensures Without(xs + [y], x) == if y == x then Without(xs, x) else Without(xs, x) + [y]
  {
    if xs == [] {
      assert xs + [y] == [y];
    } else {
      assert (xs + [y])[1..] == xs[1..] + [y];
      WithoutSnoc(xs[1..], y, x);
    }
  }

  lemma {:induction false} WithoutAbsent<T(!new)>(xs: seq<T>, x: T)
    requires x !in xs
    ensures Without(xs, x) == xs
  {
    if xs != [] {
      WithoutAbsent(xs[1..], x);
      assert xs == [xs[0]] + xs[1..];
    }
  }

  lemma {:induction false} WithoutDistinct<T(!new)>(xs: seq<T>, x: T)
    requires Distinct(xs)
    ensures Distinct(Without(xs, x))
  {
    if xs != [] {
      WithoutDistinct(xs[1..], x);
      assert xs[0] !in xs[1..];
    }
  }

  // ---------------------------------------------------------------- lists

  predicate Listed(s: string, l: string) {
    l != "" && s != "" && s in Split(l, ',')
  }

  function Added(s: string, l: string): (string, bool) {
    if l == "" then (s, true) else if Listed(s, l) then (l, false) else (l + "," + s, true)
  }

  function Deleted(s: string, l: string): (string, bool) {
    if l == "" then (l, false) else (Text(Without(Split(l, ','), s)), s in Split(l, ','))
  }

  method InList(s: string, l: string) returns (found: bool)
    ensures found <==> Listed(s, l)
  {
    if |l| == 0 || |s| == 0 {
      return false;
    }
    var ls := Split(l, ',');
    for i := 0 to |ls|
      invariant s !in ls[..i]
    {
      if ls[i] == s {
        return true;
      }
    }
    return false;
  }

  method AddToList(s: string, l: string) returns (r: string, changed: bool)
    ensures (r, changed) == Added(s, l)
  {
    if |l| == 0 {
      return s, true;
    }
    var found := InList(s, l);
    if found {
      return l, false;
    }
    return l + "," + s, true;
  }

  method DeleteFromList(s: string, l: string) returns (r: string, flag: bool)
    ensures (r, flag) == Deleted(s, l)
  {
    if |l| == 0 {
      return l, false;
    }
    flag := false;
    r := "";
    var first := true;
    var ls := Split(l, ',');
    for i := 0 to |ls|
      invariant flag <==> s in ls[..i]
      invariant first <==> Without(ls[..i], s) == []
      invariant r == Text(Without(ls[..i], s))
    {
      assert ls[..i + 1] == ls[..i] + [ls[i]];
      WithoutSnoc(ls[..i], ls[i], s);
      JoinSnoc(Without(ls[..i], s), ls[i], ",");
      if ls[i] == s {
        flag := true;
      } else {
        if first {
          first := false;
        } else {
          r := r + ",";
        }
        r := r + ls[i];
      }
    }
    assert ls[..|ls|] == ls;
  }

  /** A list text determines its items. */
  lemma SplitText(xs: seq<string>)
    requires xs != [] && AllItems(xs)
    ensures Text(xs) != "" && Split(Text(xs), ',') == xs
  {
    SplitJoin(xs, ',');
    JoinNonEmpty(xs, ",");
  }

  lemma ListedIsMember(s: string, xs: seq<string>)
    requires Item(s) && AllItems(xs)
    ensures Listed(s, Text(xs)) <==> s in xs
  {
    if xs != [] {
      SplitText(xs);
    }
  }

  lemma AddedIsInsert(s: string, xs: seq<string>)
    requires Item(s) && AllItems(xs)
    ensures Added(s, Text(xs)) == if s in xs then (Text(xs), false) else (Text(xs + [s]), true)
  {
    ListedIsMember(s, xs);
    JoinSnoc(xs, s, ",");
    if xs != [] {
      SplitText(xs);
    }
  }

  lemma DeletedIsRemove(s: string, xs: seq<string>)
    requires Item(s) && AllItems(xs)
    ensures Deleted(s, Text(xs)) == (Text(Without(xs, s)), s in xs)
  {
    if xs != [] {
      SplitText(xs);
    }
  }

  /** Deleting a freshly added item restores the text. */
  lemma DeleteUndoesAdd(s: string, xs: seq<string>)
    requires Item(s) && AllItems(xs) && s !in xs
    ensures Deleted(s, Added(s, Text(xs)).0) == (Text(xs), true)
  {
    AddedIsInsert(s, xs);
    DeletedIsRemove(s, xs + [s]);
    WithoutSnoc(xs, s, s);
    WithoutAbsent(xs, s);
  }

  // --------------------------------------------------------- number lists

  function IntsText(ns: seq<int>): string {
    Text(Ints(ns))
  }

  function AllInts(xs: seq<string>): Option<seq<int>> {
    if xs == [] then Some([])
    else match (Atoi(xs[0]), AllInts(xs[1..]))
      case (Some(n), Some(ns)) => Some([n] + ns)
      case _ => None
  }

  function ParseInts(l: string): seq<int> {
    if l == "" then []
    else match AllInts(Split(l, ','))
      case Some(ns) => ns
      case None => []
  }

  lemma {:induction false} AllIntsSnoc(xs: seq<string>, x: string)
    ensures AllInts(xs + [x]) == match (AllInts(xs), Atoi(x))
                                 case (Some(ns), Some(n)) => Some(ns + [n])
                                 case _ => None
  {
    if xs == [] {
      assert xs + [x] == [x] && [x][1..] == [];
      assert Atoi(x).Some? ==> [Atoi(x).value] + [] == [] + [Atoi(x).value];
    } else {
      assert (xs + [x])[1..] == xs[1..] + [x];
      AllIntsSnoc(xs[1..], x);
      match (Atoi(xs[0]), AllInts(xs[1..]), Atoi(x))
      case (Some(n0), Some(ns), Some(n)) =>
        assert ([n0] + ns) + [n] == [n0] + (ns + [n]);
      case _ =>
    }
  }

  lemma {:induction false} AllIntsPrefix(xs: seq<string>, i: nat)
    requires i <= |xs| && AllInts(xs[..i]).None?
    ensures AllInts(xs).None?
    decreases |xs| - i
  {
    if i < |xs| {
      assert xs[..i + 1] == xs[..i] + [xs[i]];
      AllIntsSnoc(xs[..i], xs[i]);
      AllIntsPrefix(xs, i + 1);
    } else {
      assert xs[..i] == xs;
    }
  }

  method IntArrayToString(ns: seq<int>) returns (r: string)
    ensures r == IntsText(ns)
  {
    r := "";
    var first := true;
    for i := 0 to |ns|
      invariant first <==> i == 0
      invariant r == IntsText(ns[..i])
    {
      assert Ints(ns[..i + 1]) == Ints(ns[..i]) + [Itoa(ns[i])];
      JoinSnoc(Ints(ns[..i]), Itoa(ns[i]), ",");
      if first {
        first := false;
      } else {
        r := r + ",";
      }
      r := r + Itoa(ns[i]);
    }
    assert ns[..|ns|] == ns;
  }

  method StringToIntArray(l: string) returns (r: seq<int>)
    ensures r == ParseInts(l)
  {
    if |l| == 0 {
      return [];
    }
    var ls := Split(l, ',');
    r := [];
    for i := 0 to |ls|
      invariant AllInts(ls[..i]) == Some(r)
    {
      assert ls[..i + 1] == ls[..i] + [ls[i]];
      AllIntsSnoc(ls[..i], ls[i]);
      match Atoi(ls[i])
      case None =>
        AllIntsPrefix(ls, i + 1);
        return [];
      case Some(n) =>
        r := r + [n];
    }
    assert ls[..|ls|] == ls;
  }

  lemma IntsAreItems(ns: seq<int>)
    ensures AllItems(Ints(ns))
  {
    forall i | 0 <= i < |ns|
      ensures Item(Ints(ns)[i])
    {
      ItoaFree(ns[i], ',');
    }
  }

  lemma AllIntsCons(xs: seq<string>, n: int, ns: seq<int>)
    requires xs != [] && Atoi(xs[0]) == Some(n) && AllInts(xs[1..]) == Some(ns)
    ensures AllInts(xs) == Some([n] + ns)
  {}

  lemma {:induction false} AllIntsOfInts(ns: seq<int>)
    ensures AllInts(Ints(ns)) == Some(ns)
  {
    if ns != [] {
      AtoiItoa(ns[0]);
      AllIntsOfInts(ns[1..]);
      assert Ints(ns)[1..] == Ints(ns[1..]) && Ints(ns)[0] == Itoa(ns[0]);
      AllIntsCons(Ints(ns), ns[0], ns[1..]);
      assert ns == [ns[0]] + ns[1..];
    }
  }

  /** Number lists are read back. */
  lemma ParseIntsText(ns: seq<int>)
    ensures ParseInts(IntsText(ns)) == ns
  {
    if ns != [] {
      IntsAreItems(ns);
      SplitText(Ints(ns));
      AllIntsOfInts(ns);
    }
  }

  lemma IntMember(n: int, ns: seq<int>)
    ensures Itoa(n) in Ints(ns) <==> n in ns
  {
    if Itoa(n) in Ints(ns) {
      var i :| 0 <= i < |ns| && Ints(ns)[i] == Itoa(n);
      ItoaInjective(n, ns[i]);
    }
    if n in ns {
      var i :| 0 <= i < |ns| && ns[i] == n;
      assert Ints(ns)[i] == Itoa(n);
    }
  }

  lemma {:induction false} IntsWithout(ns: seq<int>, n: int)
    ensures Without(Ints(ns), Itoa(n)) == Ints(Without(ns, n))
  {
    if ns != [] {
      IntsWithout(ns[1..], n);
      assert Ints(ns)[1..] == Ints(ns[1..]);
      if Itoa(ns[0]) == Itoa(n) {
        ItoaInjective(ns[0], n);
      }
    }
  }

  /** On number lists the text operations are the operations on the numbers: this is
      what lets the class tables speak of sequences of ids. */
  lemma NumberListOperations(n: int, ns: seq<int>)
    ensures Listed(Itoa(n), IntsText(ns)) <==> n in ns
    ensures Added(Itoa(n), IntsText(ns)) == if n in ns then (IntsText(ns), false) else (IntsText(ns + [n]), true)
    ensures Deleted(Itoa(n), IntsText(ns)) == (IntsText(Without(ns, n)), n in ns)
  {
    IntsAreItems(ns);
    ItoaFree(n, ',');
    IntMember(n, ns);
    IntsWithout(ns, n);
    ListedIsMember(Itoa(n), Ints(ns));
    AddedIsInsert(Itoa(n), Ints(ns));
    DeletedIsRemove(Itoa(n), Ints(ns));
    assert Ints(ns + [n]) == Ints(ns) + [Itoa(n)];
  }

  // --------------------------------------------------- sorted number lists

  predicate Ascending(ns: seq<int>) {
    forall i, j :: 0 <= i < j < |ns| ==> ns[i] <= ns[j]
  }

  /** n before the first greater number. */
  function Insert(n: int, ns: seq<int>): seq<int> {
    if ns == [] then [n] else if ns[0] > n then [n] + ns else [ns[0]] + Insert(n, ns[1..])
  }

  /** sort.Ints. */
  function Sorted(ns: seq<int>): seq<int> {
    if ns == [] then [] else Insert(ns[0], Sorted(ns[1..]))
  }

  lemma {:induction false} InsertKeepsNumbers(n: int, ns: seq<int>)
    ensures multiset(Insert(n, ns)) == multiset(ns) + multiset{n}
    ensures |Insert(n, ns)| == |ns| + 1
  {
    if ns != [] {
      InsertKeepsNumbers(n, ns[1..]);
      assert ns == [ns[0]] + ns[1..];
    }
  }

  lemma AscendingCons(x: int, tail: seq<int>)
    requires Ascending(tail) && forall j :: 0 <= j < |tail| ==> x <= tail[j]
    ensures Ascending([x] + tail)
  {}

  lemma {:induction false} InsertKeepsOrder(n: int, ns: seq<int>)
    requires Ascending(ns)
    ensures Ascending(Insert(n, ns))
  {
    if ns != [] && ns[0] <= n {
      var tail := Insert(n, ns[1..]);
      InsertKeepsOrder(n, ns[1..]);
      InsertKeepsNumbers(n, ns[1..]);
      forall j | 0 <= j < |tail|
        ensures ns[0] <= tail[j]
      {
        assert tail[j] in multiset(ns[1..]) + multiset{n};
      }
      AscendingCons(ns[0], tail);
    } else if ns != [] {
      AscendingCons(n, ns);
    }
  }

  lemma {:induction false} SortedFacts(ns: seq<int>)
    ensures multiset(Sorted(ns)) == multiset(ns) && Ascending(Sorted(ns))
    ensures Sorted(ns) == [] <==> ns == []
  {
    if ns != [] {
      SortedFacts(ns[1..]);
      InsertKeepsNumbers(ns[0], Sorted(ns[1..]));
      InsertKeepsOrder(ns[0], Sorted(ns[1..]));
      assert ns == [ns[0]] + ns[1..];
    }
  }

  function SortedAdded(n: int, l: string): (string, bool) {
    var arr := ParseInts(l);
    if l == "" then (Itoa(n), true)
    else if n in arr then (l, false)
    else if arr == [] then ("," + Itoa(n), true)
    else (IntsText(Insert(n, Sorted(arr))), true)
  }

  lemma {:induction false} InsertSnoc(n: int, ns: seq<int>, m: int)
    ensures Insert(n, ns + [m]) == if HasGreater(ns, n) then Insert(n, ns) + [m]
                                   else if m > n then ns + [n, m] else ns + [m, n]
  {
    if ns == [] {
      assert ns + [m] == [m];
    } else {
      assert (ns + [m])[1..] == ns[1..] + [m];
      InsertSnoc(n, ns[1..], m);
      assert ns == [ns[0]] + ns[1..];
    }
  }

  lemma IntsSnoc(ns: seq<int>, m: int)
    ensures IntsText(ns + [m]) == if ns == [] then Itoa(m) else IntsText(ns) + "," + Itoa(m)
  {
    assert Ints(ns + [m]) == Ints(ns) + [Itoa(m)];
    JoinSnoc(Ints(ns), Itoa(m), ",");
  }

  /** One number more at the end of a printed list. */
  method Append(r: string, ghost printed: seq<int>, first: bool, n: int) returns (r': string)
    requires r == IntsText(printed) && (first <==> printed == [])
    ensures r' == IntsText(printed + [n])
  {
    IntsSnoc(printed, n);
    r' := if first then r + Itoa(n) else r + "," + Itoa(n);
    assert first ==> r == "";
  }

  /** What the merging pass knows after some numbers of the list, none of them the new one. */
  ghost predicate Merging(r: string, added: bool, n: int, seen: seq<int>) {
    n !in seen && r == IntsText(Merged(n, seen)) && (added <==> HasGreater(seen, n))
  }

  lemma MergingStarts(n: int)
    ensures Merging("", false, n, [])
  {
    assert Ints([]) == [];
  }

  /** One number of the list, after the new one if its place is here. */
  method MergeOne(r: string, ghost seen: seq<int>, first: bool, added: bool, n: int, x: int)
    returns (r': string, added': bool)
    requires Merging(r, added, n, seen) && (first <==> seen == []) && x != n
    ensures Merging(r', added', n, seen + [x])
  {
    MergedNext(n, seen, x);
    r', added' := r, added;
    ghost var printed := Merged(n, seen);
    if !added && x > n {
      r' := Append(r', printed, first, n);
      r' := Append(r', printed + [n], false, x);
      added' := true;
    } else {
      r' := Append(r', printed, first, x);
    }
  }

  /** What is printed once the list is through. */
  lemma MergedAll(n: int, arr: seq<int>)
    requires n !in arr
    ensures Merged(n, arr) == if HasGreater(arr, n) then Insert(n, arr) else arr
    ensures !HasGreater(arr, n) ==> IntsText(arr) + "," + Itoa(n) == if arr == [] then "," + Itoa(n) else IntsText(Insert(n, arr))
  {
    MergedIsInsert(n, arr);
    if !HasGreater(arr, n) {
      InsertLast(n, arr);
    }
    IntsSnoc(arr, n);
    assert arr == [] ==> IntsText(arr) == "";
  }

  /** The numbers of the list with the new one among them, unless it belongs at the end. */
  method MergeAll(n: int, arr: seq<int>) returns (found: bool, r: string, added: bool)
    ensures found <==> n in arr
    ensures !found ==> Merging(r, added, n, arr)
  {
    r := "";
    added := false;
    MergingStarts(n);
    ghost var seen: seq<int> := [];
    for i := 0 to |arr|
      invariant seen == arr[..i] && Merging(r, added, n, seen)
    {
      if arr[i] == n {
        return true, r, added;
      }
      r, added := MergeOne(r, seen, i == 0, added, n, arr[i]);
      seen := seen + [arr[i]];
    }
    assert seen == arr;
    found := false;
  }

  /** The merging pass of AddToSortedIntList. */
  method MergeInto(n: int, arr: seq<int>) returns (found: bool, r: string)
    ensures found <==> n in arr
    ensures !found ==> r == if arr == [] then "," + Itoa(n) else IntsText(Insert(n, arr))
  {
    var added;
    found, r, added := MergeAll(n, arr);
    if found {
      return;
    }
    MergedAll(n, arr);
    if !added {
      r := r + "," + Itoa(n);
    } else {
      HasGreaterIsNonEmpty(arr, n);
    }
  }

  lemma HasGreaterIsNonEmpty(ns: seq<int>, n: int)
    requires HasGreater(ns, n)
    ensures ns != []
  {}

  method AddToSortedIntList(n: int, l: string) returns (r: string, changed: bool)
    ensures (r, changed) == SortedAdded(n, l)
  {
    if |l| == 0 {
      return Itoa(n), true;
    }
    var parsed := StringToIntArray(l);
    SortedHas(parsed, n);
    var found;
    found, r := MergeInto(n, Sorted(parsed));
    if found {
      return l, false;
    }
    return r, true;
  }

  /** What the merging pass has printed after ns: its numbers, and n before the first greater. */
  function Merged(n: int, ns: seq<int>): (r: seq<int>)
    ensures r == [] <==> ns == []
  {
    if ns == [] then []
    else
      var before, x := ns[..|ns| - 1], ns[|ns| - 1];
      (if !HasGreater(before, n) && x > n then Merged(n, before) + [n] else Merged(n, before)) + [x]
  }

  lemma MergedNext(n: int, seen: seq<int>, x: int)
    ensures HasGreater(seen + [x], n) <==> HasGreater(seen, n) || x > n
    ensures Merged(n, seen + [x])
         == (if !HasGreater(seen, n) && x > n then Merged(n, seen) + [n] else Merged(n, seen)) + [x]
  {
    assert (seen + [x])[..|seen|] == seen;
    HasGreaterSnoc(seen, x, n);
  }

  lemma {:induction false} MergedIsInsert(n: int, ns: seq<int>)
    requires n !in ns
    ensures Merged(n, ns) == if HasGreater(ns, n) then Insert(n, ns) else ns
  {
    if ns != [] {
      var before, x := ns[..|ns| - 1], ns[|ns| - 1];
      assert ns == before + [x];
      MergedIsInsert(n, before);
      HasGreaterSnoc(before, x, n);
      InsertSnoc(n, before, x);
      assert before + [n, x] == before + [n] + [x];
    }
  }

  lemma HasGreaterSnoc(ns: seq<int>, m: int, n: int)
    ensures HasGreater(ns + [m], n) <==> HasGreater(ns, n) || m > n
  {
    var r := ns + [m];
    assert r[|ns|] == m;
    assert forall i :: 0 <= i < |ns| ==> r[i] == ns[i];
  }

  predicate HasGreater(ns: seq<int>, n: int) {
    exists i :: 0 <= i < |ns| && ns[i] > n
  }

  lemma SortedHas(ns: seq<int>, n: int)
    ensures n in Sorted(ns) <==> n in ns
    ensures Sorted(ns) == [] <==> ns == []
  {
    SortedFacts(ns);
    assert n in Sorted(ns) <==> n in multiset(Sorted(ns));
    assert n in ns <==> n in multiset(ns);
  }

  lemma {:induction false} InsertLast(n: int, ns: seq<int>)
    requires !HasGreater(ns, n)
    ensures Insert(n, ns) == ns + [n]
  {
    if ns != [] {
      InsertLast(n, ns[1..]);
      assert ns == [ns[0]] + ns[1..];
    }
  }

  /** On a number list: the sorted list of the old numbers and the new one, or the text
      as it was when the number is there already. */
  lemma SortedAddedOnNumbers(n: int, ns: seq<int>)
    ensures n in ns ==> SortedAdded(n, IntsText(ns)) == (IntsText(ns), false)
    ensures n !in ns ==>
      var ms := if ns == [] then [n] else Insert(n, Sorted(ns));
      SortedAdded(n, IntsText(ns)) == (IntsText(ms), true)
      && Ascending(ms) && multiset(ms) == multiset(ns) + multiset{n}
  {
    ParseIntsText(ns);
    SortedFacts(ns);
    InsertKeepsNumbers(n, Sorted(ns));
    InsertKeepsOrder(n, Sorted(ns));
    if ns == [] {
      assert Ints([n]) == [Itoa(n)];
    } else {
      IntsAreItems(ns);
      SplitText(Ints(ns));
    }
  }

  // ------------------------------------------------- texts that are no number lists

  lemma {:induction false} AllIntsIff(xs: seq<string>)
    ensures AllInts(xs).Some? <==> forall i :: 0 <= i < |xs| ==> Atoi(xs[i]).Some?
    ensures AllInts(xs).Some? ==>
      |AllInts(xs).value| == |xs| && forall i :: 0 <= i < |xs| ==> Some(AllInts(xs).value[i]) == Atoi(xs[i])
  {
    if xs != [] {
      AllIntsIff(xs[1..]);
      assert xs == [xs[0]] + xs[1..];
    }
  }

  /** A text's pieces are read one by one; one piece that is no number, an empty one for
      instance, leaves no number at all. */
  lemma ParsedPieces(l: string)
    ensures var xs := Split(l, ',');
      if forall i :: 0 <= i < |xs| ==> Atoi(xs[i]).Some?
      then |ParseInts(l)| == |xs| && forall i :: 0 <= i < |xs| ==> Some(ParseInts(l)[i]) == Atoi(xs[i])
      else ParseInts(l) == []
  {
    AllIntsIff(Split(l, ','));
    if l == "" {
      assert Split(l, ',')[0] == "";
    }
  }

  /** A list that cannot be read is lost, and the number with it: what is left is a comma and
      the number, which cannot be read either. */
  lemma UnreadableIsLost(n: int, l: string)
    requires l != "" && ParseInts(l) == []
    ensures SortedAdded(n, l).1 && SortedAdded(n, l).0 == "," + Itoa(n)
    ensures ParseInts(SortedAdded(n, l).0) == []
  {
    var s := "," + Itoa(n);
    ParsedPieces(s);
    assert Split(s, ',')[0] == "";
  }

  // ------------------------------------------------------------- taking out

  /** Taking out an item that stands once leaves what is before it and what is behind it. */
  lemma WithoutAround<T(!new)>(a: seq<T>, x: T, b: seq<T>)
    requires x !in a && x !in b
    ensures Without(a + [x] + b, x) == a + b
  {
    WithoutBefore(a, x, [x] + b);
    WithoutAbsent(b, x);
    assert a + [x] + b == a + ([x] + b);
    assert ([x] + b)[1..] == b;
  }

  lemma {:induction false} WithoutBefore<T(!new)>(a: seq<T>, x: T, b: seq<T>)
    requires x !in a
    ensures Without(a + b, x) == a + Without(b, x)
  {
    if a == [] {
      assert a + b == b;
    } else {
      WithoutBefore(a[1..], x, b);
      assert (a + b)[1..] == a[1..] + b;
      assert a[0] != x;
    }
  }

  /** A number put into a list that was sorted first: the sorted list of all. */
  lemma InsertedIsSorted(n: int, ns: seq<int>)
    ensures Ascending(Insert(n, Sorted(ns))) && multiset(Insert(n, Sorted(ns))) == multiset(ns) + multiset{n}
  {
    SortedFacts(ns);
    InsertKeepsNumbers(n, Sorted(ns));
    InsertKeepsOrder(n, Sorted(ns));
  }

  /** An empty item is never found, and nothing is found in an empty list. */
  lemma NeverListed(s: string, l: string)
    ensures !Listed("", l) && !Listed(s, "")
    ensures s != "" && l != "" ==> (Listed(s, l) <==> exists i :: 0 <= i < |Split(l, ',')| && Split(l, ',')[i] == s)
  {}
}
