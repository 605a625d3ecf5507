/** Agent states: array and object forms, and their order (types/items.go). */
module AgentStates {
  import opened Basics

  datatype AgentState = AgentState(status: string, message: string, raw: string)

  // ------------------------------------------------- strconv

  const MAX_INT := 0x7FFF_FFFF_FFFF_FFFF

  predicate IsDigit(c: char) {
    '0' <= c <= '9'
  }

  predicate Digits(s: string) {
    forall i :: 0 <= i < |s| ==> IsDigit(s[i])
  }

  function Value(s: string): nat
    requires Digits(s)
  {
    if s == "" then 0 else Value(s[..|s| - 1]) * 10 + (s[|s| - 1] as int - '0' as int)
  }

  /** strconv.Itoa of an index. */
  function Itoa(n: nat): (s: string)
    ensures s != "" && Digits(s)
    ensures Value(s) == n
  {
    var last := [('0' as int + n % 10) as char];
    if n < 10 then
      assert last[..0] == "";
      last
    else
      var s := Itoa(n / 10) + last;
      assert s[..|s| - 1] == Itoa(n / 10);
      s
  }

  predicate HasSign(s: string) {
    s != "" && (s[0] == '-' || s[0] == '+')
  }

  /** strconv.Atoi: an optional sign, digits, and a value that fits an int64. */
  function Atoi(s: string): Option<int> {
    var digits := if HasSign(s) then s[1..] else s;
    if digits == "" || !Digits(digits) then None
    else
      var v: int := Value(digits);
      var n := if HasSign(s) && s[0] == '-' then -v else v;
      if -MAX_INT - 1 <= n <= MAX_INT then Some(n) else None
  }

  // ------------------------------------------------- the comparator

  /** Go's order of strings. */
  predicate LexLess(a: string, b: string) {
    b != "" && (a == "" || a[0] < b[0] || (a[0] == b[0] && LexLess(a[1..], b[1..])))
  }

  lemma {:induction false} LexOrder(a: string, b: string, c: string)
    ensures !LexLess(a, a)
    ensures LexLess(a, b) && LexLess(b, c) ==> LexLess(a, c)
    ensures a == b || LexLess(a, b) || LexLess(b, a)
    decreases |a| + |b| + |c|
  {
    if a != "" {
      if b != "" && c != "" {
        LexOrder(a[1..], b[1..], c[1..]);
      } else if b != "" {
        LexOrder(a[1..], b[1..], "");
      } else {
        LexOrder(a[1..], "", "");
      }
      assert b != "" && a[0] == b[0] && a[1..] == b[1..] ==> a == [a[0]] + a[1..] == b;
    }
  }

  /** What Entries hands to sort.Slice. */
  predicate Less(a: string, b: string) {
    if Atoi(a).Some? && Atoi(b).Some? then Atoi(a).value < Atoi(b).value else LexLess(a, b)
  }

  predicate Numeric(k: string) {
    Atoi(k).Some?
  }

  /** Less is a strict total order on the keys. */
  ghost predicate StrictOrder(keys: set<string>) {
    && (forall a :: a in keys ==> !Less(a, a))
    && (forall a, b, c :: a in keys && b in keys && c in keys && Less(a, b) && Less(b, c) ==> Less(a, c))
    && (forall a, b :: a in keys && b in keys && a != b ==> Less(a, b) || Less(b, a))
  }

  /** No two keys are the same number, such as 7 and 07. */
  ghost predicate DistinctNumbers(keys: set<string>) {
    forall a, b :: a in keys && b in keys && a != b && Numeric(a) && Numeric(b) ==> Atoi(a).value != Atoi(b).value
  }

  /** No key that is not a number lies, as a string, between two numbers that are the other way round as strings. */
  ghost predicate NoStraddler(keys: set<string>) {
    forall a, x, b :: a in keys && x in keys && b in keys && Numeric(a) && !Numeric(x) && Numeric(b) ==>
      LexLess(a, x) && LexLess(x, b) ==> Atoi(a).value < Atoi(b).value
  }

  lemma LessIsTransitive(keys: set<string>, a: string, b: string, c: string)
    requires DistinctNumbers(keys) && NoStraddler(keys)
    requires a in keys && b in keys && c in keys && Less(a, b) && Less(b, c)
    ensures Less(a, c)
  {
    LexOrder(a, b, c);
    LexOrder(c, a, b);
    LexOrder(b, c, a);
    LexOrder(a, c, b);
  }

  /** Exactly when the comparator is an order. */
  lemma OrderIff(keys: set<string>)
    ensures StrictOrder(keys) <==> DistinctNumbers(keys) && NoStraddler(keys)
  {
    if DistinctNumbers(keys) && NoStraddler(keys) {
      forall a, b, c | a in keys && b in keys && c in keys && Less(a, b) && Less(b, c) ensures Less(a, c) {
        LessIsTransitive(keys, a, b, c);
      }
      forall a, b | a in keys && b in keys ensures !Less(a, a) && (a == b || Less(a, b) || Less(b, a)) {
        LexOrder(a, b, a);
      }
    }
  }

  ghost predicate Canonical(k: string) {
    exists n: nat :: k == Itoa(n)
  }

  /** Keys that are all numbers without sign or leading zeros, or none of them a number, are in order. */
  lemma UniformKeysAreOrdered(keys: set<string>)
    requires (forall k :: k in keys ==> Numeric(k) && Canonical(k)) || (forall k :: k in keys ==> !Numeric(k))
    ensures StrictOrder(keys)
  {
    OrderIff(keys);
    forall a, b | a in keys && b in keys && Numeric(a) && Numeric(b) && a != b ensures Atoi(a).value != Atoi(b).value {
      var m: nat :| a == Itoa(m);
      var n: nat :| b == Itoa(n);
      AtoiOfItoa(m);
      AtoiOfItoa(n);
    }
  }

  lemma AtoiOfItoa(n: nat)
    ensures Atoi(Itoa(n)) == if n <= MAX_INT then Some(n) else None
  {
    assert IsDigit(Itoa(n)[0]);
  }

  /** Signed numerals are numbers too, as far as an int64 goes. */
  lemma AtoiOfSigned(n: nat)
    ensures Atoi("+" + Itoa(n)) == if n <= MAX_INT then Some(n) else None
    ensures Atoi("-" + Itoa(n)) == if n <= MAX_INT + 1 then Some(0 - n) else None
  {
    assert ("+" + Itoa(n))[1..] == Itoa(n) && ("-" + Itoa(n))[1..] == Itoa(n);
  }

  lemma CycleIsUnsorted(ks: seq<string>, a: string, b: string, c: string)
    requires a in ks && b in ks && c in ks && Less(a, b) && Less(b, c) && Less(c, a)
    requires a != b && b != c && c != a
    ensures !Sorted(ks)
  {
    var i :| 0 <= i < |ks| && ks[i] == a;
    var j :| 0 <= j < |ks| && ks[j] == b;
    var k :| 0 <= k < |ks| && ks[k] == c;
    assert j < i || k < j || i < k;
    assert Less(ks[i], ks[j]) && Less(ks[j], ks[k]) && Less(ks[k], ks[i]);
  }

  /** 9 < 10 as numbers, "10" < "1a" < "9" as strings: no arrangement of these keys is sorted. */
  lemma CyclicKeys()
    ensures Less("9", "10") && Less("10", "1a") && Less("1a", "9")
    ensures !StrictOrder({"9", "10", "1a"})
    ensures forall ks :: Arranges(ks, {"9", "10", "1a"}) ==> !Sorted(ks)
  {
    assert Value("9") == 9 && Value("10") == 10 by {
      assert "9"[..0] == "" && "10"[..1] == "1" && "1"[..0] == "";
    }
    assert !IsDigit("1a"[1]);
    assert Less("9", "10") && Less("10", "1a") && Less("1a", "9");
    assert Less("9", "10") && Less("10", "1a") && !Less("9", "1a");
    forall ks | Arranges(ks, {"9", "10", "1a"}) ensures !Sorted(ks) {
      CycleIsUnsorted(ks, "9", "10", "1a");
    }
  }

  // ------------------------------------------------- sorting

  predicate NoDuplicates(ks: seq<string>) {
    forall i, j :: 0 <= i < j < |ks| ==> ks[i] != ks[j]
  }

  ghost predicate Arranges(ks: seq<string>, keys: set<string>) {
    && NoDuplicates(ks)
    && (forall k :: k in ks <==> k in keys)
  }

  predicate Sorted(ks: seq<string>) {
    forall i, j :: 0 <= i < j < |ks| ==> !Less(ks[j], ks[i])
  }

  lemma EmptyArrangement(ks: seq<string>, keys: set<string>)
    requires Arranges(ks, keys)
    ensures ks == [] <==> keys == {}
  {
    if ks != [] {
      assert ks[0] in ks;
    }
  }

  /** An order has one sorted arrangement, so neither the map's iteration nor the sort's choices show. */
  lemma {:induction false} OneArrangement(a: seq<string>, b: seq<string>, keys: set<string>)
    requires StrictOrder(keys) && Arranges(a, keys) && Arranges(b, keys) && Sorted(a) && Sorted(b)
    ensures a == b
    decreases |a|
  {
    EmptyArrangement(a, keys);
    EmptyArrangement(b, keys);
    if a != [] {
      assert a[0] in keys && a[0] in b;
      assert b[0] in keys && b[0] in a;
      assert a[0] == b[0];
      var rest := keys - {a[0]};
      assert a == [a[0]] + a[1..] && b == [b[0]] + b[1..];
      assert Arranges(a[1..], rest) && Arranges(b[1..], rest);
      OneArrangement(a[1..], b[1..], rest);
    }
  }

  function Elements(ks: seq<string>): set<string> {
    set k | k in ks
  }

  lemma ElementsSnoc(ks: seq<string>, k: string)
    ensures Elements(ks + [k]) == Elements(ks) + {k}
  {
  }

  /**
   sort.Slice with the comparator: some rearrangement of the keys, sorted whenever
   the comparator is an order on them.
   */
  method SortKeys(keys: seq<string>) returns (sorted: seq<string>)
    requires NoDuplicates(keys)
    ensures Arranges(sorted, Elements(keys))
    ensures StrictOrder(Elements(keys)) ==> Sorted(sorted)
  {
    sorted := [];
    for n := 0 to |keys|
      invariant Arranges(sorted, Elements(keys[..n]))
      invariant StrictOrder(Elements(keys)) ==> Sorted(sorted)
    {
      assert keys[n] !in keys[..n] && keys[n] in keys;
      assert keys[..n + 1] == keys[..n] + [keys[n]];
      ElementsSnoc(keys[..n], keys[n]);
      sorted := Insert(sorted, keys[n], Elements(keys[..n]), Elements(keys));
    }
    assert keys[..|keys|] == keys;
  }

  method Insert(ks: seq<string>, k: string, ghost have: set<string>, ghost keys: set<string>)
    returns (more: seq<string>)
    requires Arranges(ks, have) && k !in have && k in keys && have <= keys
    ensures Arranges(more, have + {k})
    ensures StrictOrder(keys) && Sorted(ks) ==> Sorted(more)
  {
    var i := 0;
    while i < |ks| && Less(ks[i], k)
      invariant 0 <= i <= |ks|
      invariant forall j :: 0 <= j < i ==> Less(ks[j], k)
    {
      i := i + 1;
    }
    more := ks[..i] + [k] + ks[i..];
    InsertArranges(ks, k, have, i);
    if StrictOrder(keys) && Sorted(ks) {
      InsertSorts(ks, k, keys, i);
    }
  }

  lemma InsertArranges(ks: seq<string>, k: string, have: set<string>, i: nat)
    requires i <= |ks| && Arranges(ks, have) && k !in have
    ensures Arranges(ks[..i] + [k] + ks[i..], have + {k})
  {
    var more := ks[..i] + [k] + ks[i..];
    assert forall j :: 0 <= j < |ks| ==> ks[j] in have;
    assert forall j :: 0 <= j < |more| ==> more[j] == if j < i then ks[j] else if j == i then k else ks[j - 1];
    assert forall x :: x in ks ==> x in ks[..i] || x in ks[i..];
  }

  lemma InsertSorts(ks: seq<string>, k: string, keys: set<string>, i: nat)
    requires StrictOrder(keys) && Sorted(ks) && k in keys && forall x :: x in ks ==> x in keys
    requires i <= |ks| && (forall j :: 0 <= j < i ==> Less(ks[j], k)) && (i < |ks| ==> !Less(ks[i], k))
    ensures Sorted(ks[..i] + [k] + ks[i..])
  {
    var more := ks[..i] + [k] + ks[i..];
    assert forall j :: 0 <= j < |more| ==> more[j] == if j < i then ks[j] else if j == i then k else ks[j - 1];
    forall m, n | 0 <= m < n < |more| ensures !Less(more[n], more[m]) {
      assert more[m] in keys && more[n] in keys;
      if n == i {
        assert Less(more[m], k) && !Less(k, k);
      } else if m == i && n > i + 1 {
        assert ks[i] in keys && !Less(ks[n - 1], ks[i]);
      }
    }
  }

  // ------------------------------------------------- the two methods

  /** The trimmed JSON text by its first byte; None inside is text that does not decode. */
  datatype Wire =
    | Nothing  // empty or null
    | Object(states: Option<map<string, AgentState>>)
    | Array(items: Option<seq<AgentState>>)
    | Other(states: Option<map<string, AgentState>>)

  function FromArray(items: seq<AgentState>): map<string, AgentState> {
    if items == [] then map[]
    else FromArray(items[..|items| - 1])[Itoa(|items| - 1) := items[|items| - 1]]
  }

  method UnmarshalJSON(data: Wire) returns (states: Option<map<string, AgentState>>)
    ensures data.Nothing? ==> states == Some(map[])
    ensures data.Object? || data.Other? ==> states == data.states
    ensures data.Array? ==> states == if data.items.None? then None else Some(FromArray(data.items.value))
  {
    match data
    case Nothing => return Some(map[]);
    case Object(decoded) => return decoded;
    case Other(decoded) => return decoded;
    case Array(decoded) =>
      if decoded.None? {
        return None;
      }
      var items := decoded.value;
      var normalized: map<string, AgentState> := map[];
      for i := 0 to |items|
        invariant normalized == FromArray(items[..i])
      {
        assert items[..i + 1][..i] == items[..i];
        normalized := normalized[Itoa(i) := items[i]];
      }
      assert items[..|items|] == items;
      return Some(normalized);
  }

  lemma ItoaDiffers(m: nat, n: nat)
    requires m != n
    ensures Itoa(m) != Itoa(n)
  {
    assert Value(Itoa(m)) != Value(Itoa(n));
  }

  /** Key i of a decoded array is the decimal i, and holds its i-th state. */
  lemma {:induction false} ArrayState(items: seq<AgentState>, i: nat)
    requires i < |items|
    ensures Itoa(i) in FromArray(items) && FromArray(items)[Itoa(i)] == items[i]
    decreases |items|
  {
    if i < |items| - 1 {
      ItoaDiffers(i, |items| - 1);
      ArrayState(items[..|items| - 1], i);
    }
  }

  /** There are no other keys. */
  lemma {:induction false} ArrayKey(items: seq<AgentState>, k: string) returns (i: nat)
    requires k in FromArray(items)
    ensures i < |items| && k == Itoa(i)
    decreases |items|
  {
    i := |items| - 1;
    if k != Itoa(i) {
      i := ArrayKey(items[..i], k);
    }
  }

  type Entry = (string, AgentState)

  function KeysOf(entries: seq<Entry>): (ks: seq<string>)
    ensures |ks| == |entries| && forall i :: 0 <= i < |ks| ==> ks[i] == entries[i].0
  {
    seq(|entries|, i requires 0 <= i < |entries| => entries[i].0)
  }

  /** Entries: the keys in whatever order the map yields them, sorted, with their states. */
  method Entries(states: map<string, AgentState>) returns (entries: seq<Entry>)
    ensures Arranges(KeysOf(entries), states.Keys)
    ensures forall i :: 0 <= i < |entries| ==> entries[i].0 in states && entries[i].1 == states[entries[i].0]
    ensures StrictOrder(states.Keys) ==> Sorted(KeysOf(entries))
  {
    var todo, unsorted := states.Keys, [];
    while todo != {}
      invariant todo <= states.Keys && Arranges(unsorted, states.Keys - todo)
      decreases |todo|
    {
      var key :| key in todo;
      unsorted := unsorted + [key];
      todo := todo - {key};
    }
    assert Elements(unsorted) == states.Keys;
    var sorted := SortKeys(unsorted);
    entries := [];
    for i := 0 to |sorted|
      invariant |entries| == i
      invariant forall j :: 0 <= j < i ==> sorted[j] in states && entries[j] == (sorted[j], states[sorted[j]])
    {
      assert sorted[i] in states.Keys;
      entries := entries + [(sorted[i], states[sorted[i]])];
    }
    assert KeysOf(entries) == sorted;
  }

  function Indices(n: nat): (ks: seq<string>)
    ensures |ks| == n && forall i :: 0 <= i < n ==> ks[i] == Itoa(i)
  {
    seq(n, i requires 0 <= i < n => Itoa(i))
  }

  lemma IndicesAreSorted(n: nat)
    requires n <= MAX_INT
    ensures Sorted(Indices(n)) && NoDuplicates(Indices(n))
  {
    forall i: nat, j: nat | i < j < n ensures !Less(Itoa(j), Itoa(i)) && Itoa(i) != Itoa(j) {
      AtoiOfItoa(i);
      AtoiOfItoa(j);
      ItoaDiffers(i, j);
    }
  }

  lemma IndicesAreTheKeys(items: seq<AgentState>)
    ensures forall k :: k in FromArray(items) <==> k in Indices(|items|)
  {
    forall k ensures k in FromArray(items) <==> k in Indices(|items|) {
      if k in FromArray(items) {
        var i := ArrayKey(items, k);
        assert Indices(|items|)[i] == k;
      } else if k in Indices(|items|) {
        var i :| 0 <= i < |items| && Indices(|items|)[i] == k;
        ArrayState(items, i);
      }
    }
  }

  lemma ArraysAreOrdered(items: seq<AgentState>)
    requires |items| <= MAX_INT
    ensures StrictOrder(FromArray(items).Keys)
  {
    var all := FromArray(items).Keys;
    forall k | k in all ensures Numeric(k) && Canonical(k) {
      var i := ArrayKey(items, k);
      AtoiOfItoa(i);
    }
    UniformKeysAreOrdered(all);
  }

  /** Whatever Entries returns for what an array decodes to, it is the array's states in their order. */
  lemma ArraysKeepTheirOrder(items: seq<AgentState>, entries: seq<Entry>)
    requires |items| <= MAX_INT
    requires Arranges(KeysOf(entries), FromArray(items).Keys)
    requires forall i :: 0 <= i < |entries| ==>
               entries[i].0 in FromArray(items) && entries[i].1 == FromArray(items)[entries[i].0]
    requires StrictOrder(FromArray(items).Keys) ==> Sorted(KeysOf(entries))
    ensures |entries| == |items|
    ensures forall i: nat :: i < |items| ==> entries[i] == (Itoa(i), items[i])
  {
    ArraysAreOrdered(items);
    IndicesAreTheKeys(items);
    IndicesAreSorted(|items|);
    OneArrangement(KeysOf(entries), Indices(|items|), FromArray(items).Keys);
    forall i: nat | i < |items| ensures entries[i] == (Itoa(i), items[i]) {
      ArrayState(items, i);
      assert KeysOf(entries)[i] == Indices(|items|)[i];
    }
  }
}
