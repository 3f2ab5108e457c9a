/** Disambiguating the repeated keys of a decoded DHCP trace, and reading an option back. */
module DhcpTraces {
  import opened Wrappers

  datatype Value = Text(text: string) | Tree(fields: seq<(string, Value)>)

  // A dictionary in insertion order.
  type Dict = seq<(string, Value)>

  datatype DetailsError = UseCaseFailure | UnboundLocalError

  const UNDERSCORE := '_'
  const OPTION_TYPE := "dhcp.option.type"
  const OPTION_TREE := "dhcp.option.type_tree"

  // ---- numbers as text

  function Digit(n: nat): char
    requires n < 10
  {
    '0' + n as char
  }

  predicate IsDigit(c: char) {
    '0' <= c <= '9'
  }

  function Decimal(n: nat): (text: string)
    ensures text != [] && forall i :: 0 <= i < |text| ==> IsDigit(text[i])
  {
    if n < 10 then [Digit(n)] else Decimal(n / 10) + [Digit(n % 10)]
  }

  function Str(n: int): string {
    if n < 0 then "-" + Decimal(-n) else Decimal(n)
  }

  lemma {:induction false} DecimalIsInjective(m: nat, n: nat)
    requires Decimal(m) == Decimal(n)
    ensures m == n
  {
    var a, b := Decimal(m), Decimal(n);
    assert a[|a| - 1] == Digit(m % 10) && b[|b| - 1] == Digit(n % 10);
    if m >= 10 && n >= 10 {
      assert a[..|a| - 1] == Decimal(m / 10) && b[..|b| - 1] == Decimal(n / 10);
      DecimalIsInjective(m / 10, n / 10);
    } else {
      assert (m >= 10 ==> |a| > 1) && (n >= 10 ==> |b| > 1);
    }
  }

  // ---- dictionaries

  function Lookup(dict: Dict, key: string): (value: Option<Value>)
    ensures value.Some? ==> (key, value.value) in dict
  {
    if dict == [] then None else if dict[0].0 == key then Some(dict[0].1) else Lookup(dict[1..], key)
  }

  predicate HasKey(dict: Dict, key: string) {
    exists i :: 0 <= i < |dict| && dict[i].0 == key
  }

  /** Assignment to a key: in place if it is there, at the end if not. */
  function Put(dict: Dict, key: string, value: Value): Dict {
    if dict == [] then [(key, value)]
    else if dict[0].0 == key then [(key, value)] + dict[1..]
    else [dict[0]] + Put(dict[1..], key, value)
  }

  ghost predicate UniqueKeys(dict: Dict) {
    forall i, j :: 0 <= i < j < |dict| ==> dict[i].0 != dict[j].0
  }

  lemma {:induction false} PutNew(dict: Dict, key: string, value: Value)
    requires !HasKey(dict, key)
    ensures Put(dict, key, value) == dict + [(key, value)]
  {
    if dict != [] {
      assert dict[0].0 != key;
      assert forall i :: 0 <= i < |dict[1..]| ==> dict[1..][i] == dict[i + 1];
      PutNew(dict[1..], key, value);
    }
  }

  lemma {:induction false} PutOld(dict: Dict, key: string, value: Value)
    requires HasKey(dict, key)
    ensures |Put(dict, key, value)| == |dict|
    ensures forall k :: HasKey(Put(dict, key, value), k) <==> HasKey(dict, k)
  {
    var put := Put(dict, key, value);
    if dict[0].0 != key {
      var i :| 0 <= i < |dict| && dict[i].0 == key;
      assert dict[1..][i - 1].0 == key;
      PutOld(dict[1..], key, value);
      forall k ensures HasKey(put, k) <==> HasKey(dict, k) {
        HasKeyCons(dict[0], dict[1..], k);
        HasKeyCons(dict[0], Put(dict[1..], key, value), k);
        assert dict == [dict[0]] + dict[1..];
      }
    } else {
      assert forall j :: 0 <= j < |dict| ==> put[j].0 == dict[j].0;
    }
  }

  lemma HasKeyCons(first: (string, Value), rest: Dict, key: string)
    ensures HasKey([first] + rest, key) <==> first.0 == key || HasKey(rest, key)
  {
    var all := [first] + rest;
    if HasKey(rest, key) {
      var i :| 0 <= i < |rest| && rest[i].0 == key;
      assert all[i + 1].0 == key;
    }
    assert all[0] == first;
    assert forall i :: 0 < i < |all| ==> all[i] == rest[i - 1];
  }

  lemma {:induction false} LookupIs(dict: Dict, i: nat)
    requires UniqueKeys(dict) && i < |dict|
    ensures Lookup(dict, dict[i].0) == Some(dict[i].1)
  {
    if i > 0 {
      LookupIs(dict[1..], i - 1);
    }
  }

  // ---- _manage_duplicates

  function Count(pairs: Dict, key: string): nat {
    if pairs == [] then 0
    else Count(pairs[..|pairs| - 1], key) + (if pairs[|pairs| - 1].0 == key then 1 else 0)
  }

  /** The key itself, and from the first repeat on the key with its number. */
  function Name(key: string, repeat: nat): string {
    if repeat == 0 then key else key + "_" + Decimal(repeat)
  }

  /** The name the n-th pair is stored under. */
  function NameAt(pairs: Dict, n: nat): string
    requires n < |pairs|
  {
    Name(pairs[n].0, Count(pairs[..n], pairs[n].0))
  }

  function Deduped(pairs: Dict): Dict {
    if pairs == [] then []
    else
      var n := |pairs| - 1;
      Put(Deduped(pairs[..n]), NameAt(pairs, n), pairs[n].1)
  }

  method ManageDuplicates(pairs: Dict) returns (updated: Dict)
    ensures updated == Deduped(pairs)
  {
    updated := [];
    var counter: map<string, nat> := map[];
    for i := 0 to |pairs|
      invariant updated == Deduped(pairs[..i])
      invariant forall key :: Count(pairs[..i], key) == if key in counter then counter[key] else 0
    {
      var (key, value) := pairs[i];
      assert pairs[..i + 1][..i] == pairs[..i];
      var seen := if key in counter then counter[key] else 0;
      var indexStr := if seen == 0 then "" else "_" + Decimal(seen);
      assert seen == 0 ==> key + "" == key;
      assert key + ("_" + Decimal(seen)) == key + "_" + Decimal(seen);
      updated := Put(updated, key + indexStr, value);
      counter := counter[key := seen + 1];
    }
    assert pairs[..|pairs|] == pairs;
  }

  /** The pairs under their new names, in their old order. */
  function Renamed(pairs: Dict): (renamed: Dict)
    ensures |renamed| == |pairs|
    ensures forall i :: 0 <= i < |pairs| ==> renamed[i] == (NameAt(pairs, i), pairs[i].1)
  {
    seq(|pairs|, i requires 0 <= i < |pairs| => (NameAt(pairs, i), pairs[i].1))
  }

  /** No repeated key, given one of its repeat numbers, spells another key of the input. */
  ghost predicate NoClash(pairs: Dict) {
    forall key, repeat :: 1 <= repeat < Count(pairs, key) ==> !HasKey(pairs, Name(key, repeat))
  }

  lemma LastUnderscore(a: string, b: string, m: string, n: string)
    requires a + "_" + m == b + "_" + n && UNDERSCORE !in m && UNDERSCORE !in n
    ensures a == b && m == n
  {
    var s, t := a + "_" + m, b + "_" + n;
    assert s[|a|] == UNDERSCORE && t[|b|] == UNDERSCORE;
    assert forall i :: |a| < i < |s| ==> s[i] == m[i - |a| - 1];
    assert forall i :: |b| < i < |t| ==> t[i] == n[i - |b| - 1];
    assert |a| == |b|;
    assert s[..|a|] == a && t[..|b|] == b && s[|a| + 1..] == m && t[|b| + 1..] == n;
  }

  /** Different keys or different repeats get different names, unless a repeat spells another key. */
  lemma NamesDiffer(a: string, m: nat, b: string, n: nat)
    ensures Name(a, m) == Name(b, n) && (a != b || m != n) ==> a != b && (m == 0 || n == 0)
  {
    if m > 0 && n > 0 && Name(a, m) == Name(b, n) {
      LastUnderscore(a, b, Decimal(m), Decimal(n));
      DecimalIsInjective(m, n);
    }
    assert (m > 0 ==> |Name(a, m)| > |a|) && (n > 0 ==> |Name(b, n)| > |b|);
  }

  lemma {:induction false} CountGrows(pairs: Dict, i: nat, j: nat, key: string)
    requires i <= j <= |pairs|
    ensures Count(pairs[..i], key) <= Count(pairs[..j], key)
    ensures i < j && pairs[i].0 == key ==> Count(pairs[..i], key) < Count(pairs[..j], key)
    decreases j
  {
    if i < j {
      assert pairs[..j][..j - 1] == pairs[..j - 1];
      CountGrows(pairs, i, j - 1, key);
    }
  }

  lemma RepeatIsCounted(pairs: Dict, i: nat)
    requires i < |pairs|
    ensures Count(pairs[..i], pairs[i].0) < Count(pairs, pairs[i].0)
  {
    CountGrows(pairs, i, |pairs|, pairs[i].0);
    assert pairs[..|pairs|] == pairs;
  }

  lemma NoClashNames(pairs: Dict, i: nat, j: nat)
    requires NoClash(pairs) && i < j < |pairs|
    ensures NameAt(pairs, i) != NameAt(pairs, j)
  {
    var a, m := pairs[i].0, Count(pairs[..i], pairs[i].0);
    var b, n := pairs[j].0, Count(pairs[..j], pairs[j].0);
    RepeatIsCounted(pairs, i);
    RepeatIsCounted(pairs, j);
    CountGrows(pairs, i, j, a);
    NamesDiffer(a, m, b, n);
    assert HasKey(pairs, a) && HasKey(pairs, b);
    assert m > 0 ==> !HasKey(pairs, Name(a, m));
    assert n > 0 ==> !HasKey(pairs, Name(b, n));
  }

  lemma NotYetThere(pairs: Dict, n: nat, key: string)
    requires n <= |pairs| && forall i :: 0 <= i < n ==> NameAt(pairs, i) != key
    ensures !HasKey(Renamed(pairs)[..n], key)
  {
    forall i | 0 <= i < n ensures Renamed(pairs)[..n][i].0 != key {
      assert Renamed(pairs)[i].0 == NameAt(pairs, i);
    }
  }

  lemma DedupedNext(pairs: Dict, n: nat)
    requires n < |pairs|
    ensures Deduped(pairs[..n + 1]) == Put(Deduped(pairs[..n]), NameAt(pairs, n), pairs[n].1)
  {
    assert pairs[..n + 1][..n] == pairs[..n];
    assert NameAt(pairs[..n + 1], n) == NameAt(pairs, n);
  }

  lemma RenamedNext(pairs: Dict, n: nat)
    requires n < |pairs|
    ensures Renamed(pairs)[..n + 1] == Renamed(pairs)[..n] + [(NameAt(pairs, n), pairs[n].1)]
  {
  }

  lemma NewNameIsAppended(pairs: Dict, n: nat)
    requires n < |pairs| && Deduped(pairs[..n]) == Renamed(pairs)[..n] && forall i :: 0 <= i < n ==> NameAt(pairs, i) != NameAt(pairs, n)
    ensures Deduped(pairs[..n + 1]) == Renamed(pairs)[..n + 1]
  {
    DedupedNext(pairs, n);
    NotYetThere(pairs, n, NameAt(pairs, n));
    PutNew(Renamed(pairs)[..n], NameAt(pairs, n), pairs[n].1);
    RenamedNext(pairs, n);
  }

  ghost predicate DistinctNames(pairs: Dict, n: nat)
    requires n <= |pairs|
  {
    forall i, j :: 0 <= i < j < n ==> NameAt(pairs, i) != NameAt(pairs, j)
  }

  lemma {:induction false} DistinctNamesKeepAll(pairs: Dict, n: nat)
    requires n <= |pairs| && DistinctNames(pairs, n)
    ensures Deduped(pairs[..n]) == Renamed(pairs)[..n]
    decreases n
  {
    if n > 0 {
      DistinctNamesKeepAll(pairs, n - 1);
      NewNameIsAppended(pairs, n - 1);
    }
  }

  lemma {:induction false} NamesAreKeys(pairs: Dict, n: nat)
    requires n <= |pairs|
    ensures |Deduped(pairs[..n])| <= n
    ensures forall i :: 0 <= i < n ==> HasKey(Deduped(pairs[..n]), NameAt(pairs, i))
    ensures forall i, j :: 0 <= i < j < n && NameAt(pairs, i) == NameAt(pairs, j) ==> |Deduped(pairs[..n])| < n
    decreases n
  {
    if n > 0 {
      var before, name := Deduped(pairs[..n - 1]), NameAt(pairs, n - 1);
      assert pairs[..n][..n - 1] == pairs[..n - 1];
      assert NameAt(pairs[..n], n - 1) == name;
      NamesAreKeys(pairs, n - 1);
      PutHasKey(before, name, pairs[n - 1].1);
    }
  }

  lemma PutHasKey(dict: Dict, key: string, value: Value)
    ensures HasKey(Put(dict, key, value), key)
    ensures forall k :: HasKey(dict, k) ==> HasKey(Put(dict, key, value), k)
    ensures |Put(dict, key, value)| == if HasKey(dict, key) then |dict| else |dict| + 1
  {
    if HasKey(dict, key) {
      PutOld(dict, key, value);
    } else {
      PutNew(dict, key, value);
      var put := dict + [(key, value)];
      assert put[|dict|].0 == key;
      forall k | HasKey(dict, k) ensures HasKey(put, k) {
        var i :| 0 <= i < |dict| && dict[i].0 == k;
        assert put[i].0 == k;
      }
    }
  }

  /** The first occurrence of a key is stored under the key itself, and each repeat number below its count is used. */
  lemma {:induction false} RepeatOccurs(pairs: Dict, key: string, repeat: nat, n: nat) returns (i: nat)
    requires n <= |pairs| && repeat < Count(pairs[..n], key)
    ensures i < n && pairs[i].0 == key && Count(pairs[..i], key) == repeat
    decreases n
  {
    assert pairs[..n][..n - 1] == pairs[..n - 1];
    if repeat < Count(pairs[..n - 1], key) {
      i := RepeatOccurs(pairs, key, repeat, n - 1);
    } else {
      i := n - 1;
    }
  }

  lemma {:induction false} KeyIsCounted(pairs: Dict, i: nat)
    requires i < |pairs|
    ensures Count(pairs, pairs[i].0) > 0
  {
    RepeatIsCounted(pairs, i);
  }

  lemma ClashLosesAPair(pairs: Dict, key: string, repeat: nat)
    requires 1 <= repeat < Count(pairs, key) && HasKey(pairs, Name(key, repeat))
    ensures |Deduped(pairs)| < |pairs|
  {
    assert pairs[..|pairs|] == pairs;
    var i := RepeatOccurs(pairs, key, repeat, |pairs|);
    var c :| 0 <= c < |pairs| && pairs[c].0 == Name(key, repeat);
    KeyIsCounted(pairs, c);
    var j := RepeatOccurs(pairs, Name(key, repeat), 0, |pairs|);
    assert NameAt(pairs, i) == NameAt(pairs, j);
    assert |Name(key, repeat)| > |key|;
    NamesAreKeys(pairs, |pairs|);
  }

  /**
   * No pair is lost if and only if no numbered repeat spells another key of the input; then the result
   * is the input in its order, the k-th repeat of a key stored under key_k.
   */
  lemma LosslessIff(pairs: Dict)
    ensures |Deduped(pairs)| == |pairs| <==> NoClash(pairs)
    ensures NoClash(pairs) ==> Deduped(pairs) == Renamed(pairs) && UniqueKeys(Renamed(pairs))
  {
    if NoClash(pairs) {
      forall i, j | 0 <= i < j < |pairs| ensures NameAt(pairs, i) != NameAt(pairs, j) {
        NoClashNames(pairs, i, j);
      }
      DistinctNamesKeepAll(pairs, |pairs|);
      assert pairs[..|pairs|] == pairs && Renamed(pairs)[..|pairs|] == Renamed(pairs);
    } else {
      var key, repeat :| 1 <= repeat < Count(pairs, key) && HasKey(pairs, Name(key, repeat));
      ClashLosesAPair(pairs, key, repeat);
    }
  }

  // ---- reading an option back

  predicate StartsWith(s: string, prefix: string) {
    |prefix| <= |s| && s[..|prefix|] == prefix
  }

  predicate Contains(s: string, part: string) {
    StartsWith(s, part) || (s != [] && Contains(s[1..], part))
  }

  function DhcpOptions(packet: Dict): Dict {
    if packet == [] then []
    else
      var n := |packet| - 1;
      if Contains(packet[n].0, OPTION_TYPE) then DhcpOptions(packet[..n]) + [packet[n]] else DhcpOptions(packet[..n])
  }

  /** An underscore with a digit behind it, anywhere in the key. */
  predicate HasRepeatNumber(key: string) {
    exists i :: 0 <= i < |key| - 1 && key[i] == UNDERSCORE && IsDigit(key[i + 1])
  }

  /** The pieces of a key between its underscores. */
  function Split(key: string): (pieces: seq<string>)
    ensures pieces != []
  {
    if key == [] then [[]]
    else
      var rest := Split(key[1..]);
      if key[0] == UNDERSCORE then [[]] + rest else [[key[0]] + rest[0]] + rest[1..]
  }

  /** Where the tree of the option under this key is looked for. */
  function TreeKey(key: string): string {
    if !HasRepeatNumber(key) then key + "_tree"
    else
      var pieces := Split(key);
      pieces[0] + "_tree_" + pieces[|pieces| - 1]
  }

  /** The loop from item i on: a numbered key ends it, a plain one lets a later match override it. */
  function DetailsFrom(options: Dict, option: string, i: nat, out: Option<Value>): Result<Value, DetailsError>
    requires i <= |options|
    decreases |options| - i
  {
    if i == |options| then (if out.Some? then Success(out.value) else Failure(UnboundLocalError))
    else
      var (key, value) := options[i];
      if value != Text(option) then DetailsFrom(options, option, i + 1, out)
      else
        var tree := Lookup(options, TreeKey(key));
        if tree.None? then Failure(UseCaseFailure)
        else if HasRepeatNumber(key) then Success(tree.value)
        else DetailsFrom(options, option, i + 1, tree)
  }

  function Details(packet: Dict, option: int): Result<Value, DetailsError> {
    DetailsFrom(DhcpOptions(packet), Str(option), 0, None)
  }

  method GetDhcpOptionDetails(packet: Dict, option: int) returns (r: Result<Value, DetailsError>)
    ensures r == Details(packet, option)
  {
    var options := DhcpOptions(packet);
    var out: Option<Value> := None;
    for i := 0 to |options|
      invariant Details(packet, option) == DetailsFrom(options, Str(option), i, out)
    {
      var (key, value) := options[i];
      if value == Text(Str(option)) {
        if !HasRepeatNumber(key) {
          var tree := Lookup(options, key + "_tree");
          if tree.None? {
            return Failure(UseCaseFailure);
          }
          out := tree;
        } else {
          var pieces := Split(key);
          var tree := Lookup(options, pieces[0] + "_tree_" + pieces[|pieces| - 1]);
          if tree.None? {
            return Failure(UseCaseFailure);
          }
          out := tree;
          break;
        }
      }
    }
    return if out.Some? then Success(out.value) else Failure(UnboundLocalError);
  }

  /** The pairs a decoder emits for a list of options: each type followed by its tree. */
  function Emitted(options: seq<(string, Value)>): Dict {
    if options == [] then []
    else
      var n := |options| - 1;
      Emitted(options[..n]) + [(OPTION_TYPE, Text(options[n].0)), (OPTION_TREE, options[n].1)]
  }

  lemma {:induction false} EmittedAt(options: seq<(string, Value)>, j: nat)
    requires j < |options|
    ensures |Emitted(options)| == 2 * |options|
    ensures Emitted(options)[2 * j] == (OPTION_TYPE, Text(options[j].0))
    ensures Emitted(options)[2 * j + 1] == (OPTION_TREE, options[j].1)
  {
    var n := |options| - 1;
    if n > 0 {
      EmittedAt(options[..n], if j < n then j else 0);
    }
  }

  // ---- the filter and the renaming commute

  lemma SuffixStartsNothing(s: string, suffix: string, part: string)
    requires part != [] && forall c :: c in suffix ==> c !in part
    ensures StartsWith(s + suffix, part) <==> StartsWith(s, part)
  {
    var all, n := s + suffix, |part|;
    if n <= |s| {
      assert all[..n] == s[..n];
    } else if n <= |all| {
      assert suffix[0] in suffix && part[|s|] in part;
      assert all[..n][|s|] == suffix[0] != part[|s|];
    }
  }

  lemma {:induction false} SuffixAddsNothing(s: string, suffix: string, part: string)
    requires part != [] && forall c :: c in suffix ==> c !in part
    ensures Contains(s + suffix, part) <==> Contains(s, part)
    decreases |s| + |suffix|
  {
    SuffixStartsNothing(s, suffix, part);
    if s != [] {
      assert (s + suffix)[1..] == s[1..] + suffix;
      SuffixAddsNothing(s[1..], suffix, part);
    } else if suffix != [] {
      assert (s + suffix)[1..] == [] + suffix[1..];
      SuffixAddsNothing([], suffix[1..], part);
    }
  }

  lemma RepeatKeepsType(key: string, repeat: nat)
    ensures Contains(Name(key, repeat), OPTION_TYPE) <==> Contains(key, OPTION_TYPE)
  {
    if repeat > 0 {
      assert forall c :: c in OPTION_TYPE ==> c != UNDERSCORE && !IsDigit(c);
      SuffixAddsNothing(key, "_" + Decimal(repeat), OPTION_TYPE);
      assert key + ("_" + Decimal(repeat)) == Name(key, repeat);
    }
  }

  lemma {:induction false} FilterKeepsCount(pairs: Dict, key: string)
    requires Contains(key, OPTION_TYPE)
    ensures Count(DhcpOptions(pairs), key) == Count(pairs, key)
  {
    if pairs != [] {
      var n := |pairs| - 1;
      FilterKeepsCount(pairs[..n], key);
      if Contains(pairs[n].0, OPTION_TYPE) {
        assert DhcpOptions(pairs)[..|DhcpOptions(pairs)| - 1] == DhcpOptions(pairs[..n]);
      }
    }
  }

  lemma RenamedSnoc(pairs: Dict, pair: (string, Value))
    ensures Renamed(pairs + [pair]) == Renamed(pairs) + [(Name(pair.0, Count(pairs, pair.0)), pair.1)]
  {
    var all := pairs + [pair];
    assert all[..|pairs|] == pairs;
    forall i | 0 <= i < |pairs| ensures NameAt(all, i) == NameAt(pairs, i) {
      assert all[..i] == pairs[..i];
    }
  }

  lemma {:induction false} FilterOfRenamed(pairs: Dict)
    ensures DhcpOptions(Renamed(pairs)) == Renamed(DhcpOptions(pairs))
  {
    if pairs != [] {
      var n := |pairs| - 1;
      var last := pairs[n];
      var name := Name(last.0, Count(pairs[..n], last.0));
      assert pairs == pairs[..n] + [last];
      RenamedSnoc(pairs[..n], last);
      assert Renamed(pairs)[..n] == Renamed(pairs[..n]) && Renamed(pairs)[n] == (name, last.1);
      FilterOfRenamed(pairs[..n]);
      RepeatKeepsType(last.0, Count(pairs[..n], last.0));
      if Contains(last.0, OPTION_TYPE) {
        FilterKeepsCount(pairs[..n], last.0);
        RenamedSnoc(DhcpOptions(pairs[..n]), last);
      }
    }
  }

  lemma {:induction false} FilterKeepsUnique(dict: Dict)
    requires UniqueKeys(dict)
    ensures UniqueKeys(DhcpOptions(dict)) && forall pair :: pair in DhcpOptions(dict) ==> pair in dict
  {
    if dict != [] {
      var n := |dict| - 1;
      FilterKeepsUnique(dict[..n]);
      assert dict == dict[..n] + [dict[n]];
      forall i | 0 <= i < |DhcpOptions(dict[..n])| ensures DhcpOptions(dict[..n])[i].0 != dict[n].0 {
        assert DhcpOptions(dict[..n])[i] in dict[..n];
      }
    }
  }

  // ---- the emitted options under their new names

  lemma {:induction false} EmittedCounts(options: seq<(string, Value)>)
    ensures Count(Emitted(options), OPTION_TYPE) == |options| && Count(Emitted(options), OPTION_TREE) == |options|
  {
    if options != [] {
      var n := |options| - 1;
      var before, kind, tree := Emitted(options[..n]), (OPTION_TYPE, Text(options[n].0)), (OPTION_TREE, options[n].1);
      EmittedCounts(options[..n]);
      assert Emitted(options)[..|before| + 1] == before + [kind];
      assert (before + [kind])[..|before|] == before;
      assert |OPTION_TYPE| != |OPTION_TREE|;
    }
  }

  lemma {:induction false} EmittedPrefix(options: seq<(string, Value)>, j: nat)
    requires j <= |options|
    ensures |Emitted(options)| == 2 * |options| && Emitted(options)[..2 * j] == Emitted(options[..j])
  {
    if j < |options| {
      EmittedPrefix(options[..|options| - 1], j);
      assert options[..|options| - 1][..j] == options[..j];
    } else {
      assert options[..j] == options;
      if options != [] {
        EmittedAt(options, 0);
      }
      assert Emitted(options)[..2 * j] == Emitted(options);
    }
  }

  lemma CountsBefore(pairs: Dict, n: nat, key: string)
    requires n < |pairs|
    ensures Count(pairs[..n + 1], key) == Count(pairs[..n], key) + (if pairs[n].0 == key then 1 else 0)
  {
    assert pairs[..n + 1][..n] == pairs[..n];
  }

  lemma CountsOfEmitted(options: seq<(string, Value)>, j: nat)
    requires j < |options|
    ensures |Emitted(options)| == 2 * |options|
    ensures Count(Emitted(options)[..2 * j], OPTION_TYPE) == j && Count(Emitted(options)[..2 * j], OPTION_TREE) == j
  {
    EmittedPrefix(options, j);
    EmittedCounts(options[..j]);
  }

  lemma RenamedAt(pairs: Dict, n: nat, key: string, value: Value, repeat: nat)
    requires n < |pairs| && pairs[n] == (key, value) && Count(pairs[..n], key) == repeat
    ensures Renamed(pairs)[n] == (Name(key, repeat), value)
  {}

  lemma RenamedEmittedAt(options: seq<(string, Value)>, j: nat)
    requires j < |options|
    ensures |Renamed(Emitted(options))| == 2 * |options|
    ensures Renamed(Emitted(options))[2 * j] == (Name(OPTION_TYPE, j), Text(options[j].0))
    ensures Renamed(Emitted(options))[2 * j + 1] == (Name(OPTION_TREE, j), options[j].1)
  {
    var all := Emitted(options);
    EmittedAt(options, j);
    CountsOfEmitted(options, j);
    RenamedAt(all, 2 * j, OPTION_TYPE, Text(options[j].0), j);
    assert |OPTION_TYPE| != |OPTION_TREE|;
    CountsBefore(all, 2 * j, OPTION_TREE);
    RenamedAt(all, 2 * j + 1, OPTION_TREE, options[j].1, j);
  }

  lemma {:induction false} SplitWhole(s: string)
    requires UNDERSCORE !in s
    ensures Split(s) == [s]
  {
    if s != [] {
      SplitWhole(s[1..]);
      assert [s[0]] + s[1..] == s;
    }
  }

  lemma {:induction false} SplitOnce(a: string, b: string)
    requires UNDERSCORE !in a && UNDERSCORE !in b
    ensures Split(a + "_" + b) == [a, b]
  {
    var s := a + "_" + b;
    if a == [] {
      assert s[1..] == b && s[0] == UNDERSCORE;
      SplitWhole(b);
    } else {
      assert s[1..] == a[1..] + "_" + b && s[0] == a[0];
      SplitOnce(a[1..], b);
      assert [a[0]] + a[1..] == a;
    }
  }

  /** The tree of the j-th type key is looked for under the name the j-th tree got. */
  lemma TreeKeyOf(j: nat)
    ensures TreeKey(Name(OPTION_TYPE, j)) == Name(OPTION_TREE, j)
    ensures HasRepeatNumber(Name(OPTION_TYPE, j)) <==> j > 0
  {
    assert forall c :: c in OPTION_TYPE ==> c != UNDERSCORE;
    assert OPTION_TYPE + "_tree" == OPTION_TREE;
    if j > 0 {
      var key := Name(OPTION_TYPE, j);
      assert key[|OPTION_TYPE|] == UNDERSCORE && key[|OPTION_TYPE| + 1] == Decimal(j)[0];
      SplitOnce(OPTION_TYPE, Decimal(j));
      assert OPTION_TYPE + "_tree_" == OPTION_TREE + "_";
    }
  }

  /** The first option from the j-th on with this number. */
  function FirstFrom(options: seq<(string, Value)>, option: string, j: nat): (found: Option<nat>)
    requires j <= |options|
    ensures found.Some? ==> j <= found.value < |options| && options[found.value].0 == option
    decreases |options| - j
  {
    if j == |options| then None else if options[j].0 == option then Some(j) else FirstFrom(options, option, j + 1)
  }

  /** What the loop settles on: the first repeat of the option if there is one, else its plain occurrence. */
  function Pick(options: seq<(string, Value)>, option: string): (picked: Option<nat>)
    ensures picked.Some? ==> picked.value < |options| && options[picked.value].0 == option
  {
    if options == [] then None
    else
      var later := FirstFrom(options, option, 1);
      if later.Some? then later else if options[0].0 == option then Some(0) else None
  }

  ghost predicate AreTrees(options: seq<(string, Value)>) {
    forall j :: 0 <= j < |options| ==> options[j].1.Tree?
  }

  lemma ItemSkipped(dict: Dict, option: string, i: nat, out: Option<Value>)
    requires i < |dict| && dict[i].1 != Text(option)
    ensures DetailsFrom(dict, option, i, out) == DetailsFrom(dict, option, i + 1, out)
  {
  }

  lemma ItemFollowed(dict: Dict, option: string, i: nat, out: Option<Value>, tree: Value)
    requires i < |dict| && dict[i].1 == Text(option) && Lookup(dict, TreeKey(dict[i].0)) == Some(tree)
    ensures DetailsFrom(dict, option, i, out)
            == if HasRepeatNumber(dict[i].0) then Success(tree) else DetailsFrom(dict, option, i + 1, Some(tree))
  {
  }

  /** Type and tree of the j-th option, each under the name it got. */
  ghost predicate PairAt(dict: Dict, options: seq<(string, Value)>, j: nat)
    requires j < |options|
  {
    && 2 * j + 1 < |dict|
    && dict[2 * j] == (Name(OPTION_TYPE, j), Text(options[j].0))
    && dict[2 * j + 1] == (Name(OPTION_TREE, j), options[j].1)
  }

  ghost predicate Alternates(dict: Dict, options: seq<(string, Value)>) {
    && |dict| == 2 * |options| && UniqueKeys(dict)
    && (forall j :: 0 <= j < |options| ==> PairAt(dict, options, j))
  }

  lemma RenamedAlternates(options: seq<(string, Value)>)
    requires UniqueKeys(Renamed(Emitted(options)))
    ensures Alternates(Renamed(Emitted(options)), options)
  {
    forall j | 0 <= j < |options| ensures PairAt(Renamed(Emitted(options)), options, j) {
      RenamedEmittedAt(options, j);
    }
    if options != [] {
      RenamedEmittedAt(options, 0);
    }
  }

  lemma MatchFollowed(dict: Dict, options: seq<(string, Value)>, j: nat, out: Option<Value>)
    requires Alternates(dict, options) && j < |options|
    ensures DetailsFrom(dict, options[j].0, 2 * j, out)
            == if j > 0 then Success(options[j].1) else DetailsFrom(dict, options[j].0, 1, Some(options[0].1))
  {
    assert PairAt(dict, options, j);
    TreeKeyOf(j);
    LookupIs(dict, 2 * j + 1);
    ItemFollowed(dict, options[j].0, 2 * j, out, options[j].1);
  }

  /** The two items of the j-th option: a match is followed to its own tree, and ends the loop if it is numbered. */
  lemma DetailsStep(dict: Dict, options: seq<(string, Value)>, option: string, j: nat, out: Option<Value>)
    requires Alternates(dict, options) && AreTrees(options) && j < |options|
    ensures DetailsFrom(dict, option, 2 * j, out)
            == if options[j].0 != option then DetailsFrom(dict, option, 2 * j + 2, out)
               else if j > 0 then Success(options[j].1)
               else DetailsFrom(dict, option, 2, Some(options[0].1))
  {
    assert PairAt(dict, options, j);
    if options[j].0 == option {
      MatchFollowed(dict, options, j, out);
      if j == 0 {
        ItemSkipped(dict, option, 1, Some(options[0].1));
      }
    } else {
      ItemSkipped(dict, option, 2 * j, out);
      ItemSkipped(dict, option, 2 * j + 1, out);
    }
  }

  lemma {:induction false} DetailsAfterFirst(dict: Dict, options: seq<(string, Value)>, option: string, j: nat, out: Option<Value>)
    requires Alternates(dict, options) && AreTrees(options) && 1 <= j <= |options|
    ensures DetailsFrom(dict, option, 2 * j, out)
            == var found := FirstFrom(options, option, j);
               if found.Some? then Success(options[found.value].1)
               else if out.Some? then Success(out.value) else Failure(UnboundLocalError)
    decreases |options| - j
  {
    if j < |options| {
      DetailsStep(dict, options, option, j, out);
      if options[j].0 != option {
        DetailsAfterFirst(dict, options, option, j + 1, out);
      }
    }
  }

  /**
   * The round trip: from a packet whose option pairs alternate type and tree, the details of an option
   * are the tree emitted with it; with several occurrences the first repeat wins over the plain one,
   * and an option that does not occur ends in the unbound variable, not in the documented failure.
   */
  lemma OptionRoundTrip(pairs: Dict, options: seq<(string, Value)>, option: int)
    requires NoClash(pairs) && DhcpOptions(pairs) == Emitted(options) && AreTrees(options)
    ensures Details(Deduped(pairs), option)
            == var picked := Pick(options, Str(option));
               if picked.Some? then Success(options[picked.value].1) else Failure(UnboundLocalError)
  {
    LosslessIff(pairs);
    FilterOfRenamed(pairs);
    FilterKeepsUnique(Renamed(pairs));
    var dict := Renamed(Emitted(options));
    RenamedAlternates(options);
    if options != [] {
      DetailsStep(dict, options, Str(option), 0, None);
      DetailsAfterFirst(dict, options, Str(option), 1, if options[0].0 == Str(option) then Some(options[0].1) else None);
    }
  }

  lemma {:induction false} FirstFromFinds(options: seq<(string, Value)>, option: string, at: nat, j: nat)
    requires at <= j < |options| && options[j].0 == option
    ensures FirstFrom(options, option, at).Some?
    decreases |options| - at
  {
    if options[at].0 != option {
      FirstFromFinds(options, option, at + 1, j);
    }
  }

  /** An option that occurs once is answered with exactly its own tree. */
  lemma OptionOccursOnce(pairs: Dict, options: seq<(string, Value)>, option: int, j: nat)
    requires NoClash(pairs) && DhcpOptions(pairs) == Emitted(options) && AreTrees(options)
    requires j < |options| && forall i :: 0 <= i < |options| ==> (options[i].0 == Str(option) <==> i == j)
    ensures Details(Deduped(pairs), option) == Success(options[j].1)
  {
    OptionRoundTrip(pairs, options, option);
    if j > 0 {
      FirstFromFinds(options, Str(option), 1, j);
    }
  }

  // ---- the numbers and names, spelled out

  /** The number a string of digits spells. */
  function Spelt(text: string): int {
    if text == [] then 0 else 10 * Spelt(text[..|text| - 1]) + (text[|text| - 1] as int - '0' as int)
  }

  /** Decimal notation: digits that spell the number, without a leading zero. */
  lemma {:induction false} DecimalSpells(n: nat)
    ensures Spelt(Decimal(n)) == n
    ensures |Decimal(n)| > 1 ==> Decimal(n)[0] != '0'
    ensures n > 0 ==> Decimal(n)[0] != '0'
  {
    if n >= 10 {
      DecimalSpells(n / 10);
      assert Decimal(n)[..|Decimal(n)| - 1] == Decimal(n / 10);
      assert Decimal(n)[0] == Decimal(n / 10)[0];
    }
  }

  lemma OptionsAreSpelt()
    ensures Str(0) == "0" && Str(3) == "3" && Str(53) == "53" && Str(61) == "61" && Str(119) == "119" && Str(-1) == "-1"
  {
    assert Decimal(5) == "5" && Decimal(53) == "53" && Decimal(6) == "6" && Decimal(61) == "61";
    assert Decimal(1) == "1" && Decimal(11) == "11" && Decimal(119) == "119";
  }

  /** The part stands somewhere in the string. */
  ghost predicate Within(part: string, s: string) {
    exists i, j :: 0 <= i <= j <= |s| && s[i..j] == part
  }

  lemma {:induction false} ContainsIff(s: string, part: string)
    ensures Contains(s, part) <==> Within(part, s)
  {
    if StartsWith(s, part) {
      assert s[0..|part|] == part;
    } else if s != [] {
      ContainsIff(s[1..], part);
      if Within(part, s[1..]) {
        var i, j :| 0 <= i <= j <= |s[1..]| && s[1..][i..j] == part;
        assert s[i + 1..j + 1] == part;
      }
      if Within(part, s) {
        var i, j :| 0 <= i <= j <= |s| && s[i..j] == part;
        assert s[0..j] == s[..j];
        assert i > 0;
        assert s[1..][i - 1..j - 1] == part;
      }
    }
  }

  lemma {:induction false} FilterIs(packet: Dict, pair: (string, Value))
    ensures pair in DhcpOptions(packet) <==> pair in packet && Contains(pair.0, OPTION_TYPE)
  {
    if packet != [] {
      FilterIs(packet[..|packet| - 1], pair);
      assert packet == packet[..|packet| - 1] + [packet[|packet| - 1]];
    }
  }

  /** A pair of a packet is an option if its key has "dhcp.option.type" in it. */
  lemma OptionsAre(packet: Dict, pair: (string, Value))
    ensures pair in DhcpOptions(packet) <==> pair in packet && Within("dhcp.option.type", pair.0)
  {
    FilterIs(packet, pair);
    ContainsIff(pair.0, OPTION_TYPE);
  }

  /** How many pairs have the key. */
  lemma {:induction false} CountIs(pairs: Dict, key: string)
    ensures Count(pairs, key) == |set j | 0 <= j < |pairs| && pairs[j].0 == key|
  {
    var all := set j | 0 <= j < |pairs| && pairs[j].0 == key;
    if pairs == [] {
      assert all == {};
    } else {
      var n := |pairs| - 1;
      var before := set j | 0 <= j < n && pairs[..n][j].0 == key;
      CountIs(pairs[..n], key);
      assert all == if pairs[n].0 == key then before + {n} else before;
    }
  }

  /** Without a clash every pair is there, the first of a key under the key itself and its k-th repeat under "key_k". */
  lemma RepeatsAreNumbered(pairs: Dict, i: nat)
    requires NoClash(pairs) && i < |pairs|
    ensures |Deduped(pairs)| == |pairs| && Deduped(pairs)[i].1 == pairs[i].1
    ensures var repeat := |set j | 0 <= j < i && pairs[j].0 == pairs[i].0|;
            Deduped(pairs)[i].0 == if repeat == 0 then pairs[i].0 else pairs[i].0 + "_" + Decimal(repeat)
  {
    LosslessIff(pairs);
    CountBefore(pairs, i, pairs[i].0);
  }

  lemma CountBefore(pairs: Dict, i: nat, key: string)
    requires i <= |pairs|
    ensures Count(pairs[..i], key) == |set j | 0 <= j < i && pairs[j].0 == key|
  {
    CountIs(pairs[..i], key);
    assert (set j | 0 <= j < i && pairs[..i][j].0 == key) == (set j | 0 <= j < i && pairs[j].0 == key);
  }

  lemma {:induction false} PutThenLookup(dict: Dict, key: string, value: Value, other: string)
    ensures Lookup(Put(dict, key, value), other) == if other == key then Some(value) else Lookup(dict, other)
  {
    if dict != [] && dict[0].0 != key {
      PutThenLookup(dict[1..], key, value, other);
      assert ([dict[0]] + Put(dict[1..], key, value))[1..] == Put(dict[1..], key, value);
    } else if dict != [] {
      assert ([(key, value)] + dict[1..])[1..] == dict[1..];
    }
  }

  /** With or without clashes, a name answers with the last pair stored under it. */
  lemma {:induction false} LastPairWins(pairs: Dict, i: nat, n: nat)
    requires i < n <= |pairs| && forall j :: i < j < n ==> NameAt(pairs, j) != NameAt(pairs, i)
    ensures Lookup(Deduped(pairs[..n]), NameAt(pairs, i)) == Some(pairs[i].1)
    decreases n
  {
    DedupedNext(pairs, n - 1);
    PutThenLookup(Deduped(pairs[..n - 1]), NameAt(pairs, n - 1), pairs[n - 1].1, NameAt(pairs, i));
    if i < n - 1 {
      LastPairWins(pairs, i, n - 1);
    }
  }

  // ---- which option is answered

  lemma {:induction false} FirstFromIs(options: seq<(string, Value)>, option: string, at: nat, j: nat)
    requires at <= j < |options| && options[j].0 == option && forall i :: at <= i < j ==> options[i].0 != option
    ensures FirstFrom(options, option, at) == Some(j)
    decreases j - at
  {
    if at < j {
      FirstFromIs(options, option, at + 1, j);
    }
  }

  lemma {:induction false} FirstFromNone(options: seq<(string, Value)>, option: string, at: nat)
    requires at <= |options| && forall i :: at <= i < |options| ==> options[i].0 != option
    ensures FirstFrom(options, option, at).None?
    decreases |options| - at
  {
    if at < |options| {
      FirstFromNone(options, option, at + 1);
    }
  }

  /** Of several occurrences the earliest but the very first option of the packet is answered. */
  lemma EarliestRepeatWins(pairs: Dict, options: seq<(string, Value)>, option: int, j: nat)
    requires NoClash(pairs) && DhcpOptions(pairs) == Emitted(options) && AreTrees(options)
    requires 1 <= j < |options| && options[j].0 == Str(option) && forall i :: 1 <= i < j ==> options[i].0 != Str(option)
    ensures Details(Deduped(pairs), option) == Success(options[j].1)
  {
    OptionRoundTrip(pairs, options, option);
    FirstFromIs(options, Str(option), 1, j);
  }

  /** The first option of the packet is answered only if it does not occur again, and an option that does not occur is an unbound variable. */
  lemma OtherwiseThePlainOne(pairs: Dict, options: seq<(string, Value)>, option: int)
    requires NoClash(pairs) && DhcpOptions(pairs) == Emitted(options) && AreTrees(options)
    requires forall i :: 1 <= i < |options| ==> options[i].0 != Str(option)
    ensures Details(Deduped(pairs), option)
            == if options != [] && options[0].0 == Str(option) then Success(options[0].1) else Failure(UnboundLocalError)
  {
    OptionRoundTrip(pairs, options, option);
    if options != [] {
      FirstFromNone(options, Str(option), 1);
    }
  }

  lemma {:induction false} DetailsSkip(options: Dict, option: string, i: nat, j: nat)
    requires i <= j <= |options| && forall k :: i <= k < j ==> options[k].1 != Text(option)
    ensures DetailsFrom(options, option, i, None) == DetailsFrom(options, option, j, None)
    decreases j - i
  {
    if i < j {
      DetailsSkip(options, option, i + 1, j);
    }
  }

  /** The documented failure is for an option whose tree is missing. */
  lemma MissingTreeFails(packet: Dict, option: int, j: nat)
    requires j < |DhcpOptions(packet)| && DhcpOptions(packet)[j].1 == Text(Str(option))
    requires forall k :: 0 <= k < j ==> DhcpOptions(packet)[k].1 != Text(Str(option))
    requires !HasRepeatNumber(DhcpOptions(packet)[j].0)
    requires Lookup(DhcpOptions(packet), DhcpOptions(packet)[j].0 + "_tree").None?
    ensures Details(packet, option) == Failure(UseCaseFailure)
  {
    DetailsSkip(DhcpOptions(packet), Str(option), 0, j);
  }

  lemma EmittedTwo(a: string, first: Value, b: string, second: Value)
    ensures Emitted([(a, first), (b, second)]) == [(OPTION_TYPE, Text(a)), (OPTION_TREE, first), (OPTION_TYPE, Text(b)), (OPTION_TREE, second)]
  {
    var options := [(a, first), (b, second)];
    assert options[..1] == [(a, first)] && options[..1][..0] == [];
    assert Emitted(options[..1]) == [(OPTION_TYPE, Text(a)), (OPTION_TREE, first)];
  }

  /** A packet with options 53 and 61: each is answered with its own tree. */
  lemma TwoOptions(first: Value, second: Value)
    requires first.Tree? && second.Tree?
    ensures var pairs := [("dhcp.option.type", Text("53")), ("dhcp.option.type_tree", first),
                          ("dhcp.option.type", Text("61")), ("dhcp.option.type_tree", second)];
            Details(Deduped(pairs), 53) == Success(first) && Details(Deduped(pairs), 61) == Success(second)
  {
    var options := [("53", first), ("61", second)];
    var pairs := [(OPTION_TYPE, Text("53")), (OPTION_TREE, first), (OPTION_TYPE, Text("61")), (OPTION_TREE, second)];
    OptionsAreSpelt();
    EmittedTwo("53", first, "61", second);
    EmittedIsAllOptions(options);
    EmittedDoesNotClash(options);
    OptionOccursOnce(pairs, options, 53, 0);
    OptionOccursOnce(pairs, options, 61, 1);
  }

  lemma {:induction false} EmittedIsAllOptions(options: seq<(string, Value)>)
    ensures DhcpOptions(Emitted(options)) == Emitted(options)
  {
    if options != [] {
      var before := Emitted(options[..|options| - 1]);
      EmittedIsAllOptions(options[..|options| - 1]);
      var half := before + [(OPTION_TYPE, Text(options[|options| - 1].0))];
      assert Emitted(options)[..|Emitted(options)| - 1] == half && half[..|half| - 1] == before;
      assert OPTION_TREE[..|OPTION_TYPE|] == OPTION_TYPE && OPTION_TYPE[..|OPTION_TYPE|] == OPTION_TYPE;
      assert Contains(OPTION_TYPE, OPTION_TYPE) && Contains(OPTION_TREE, OPTION_TYPE);
    }
  }

  lemma {:induction false} EmittedKeys(options: seq<(string, Value)>)
    ensures forall i :: 0 <= i < |Emitted(options)| ==> Emitted(options)[i].0 == OPTION_TYPE || Emitted(options)[i].0 == OPTION_TREE
  {
    if options != [] {
      EmittedKeys(options[..|options| - 1]);
    }
  }

  lemma EmittedDoesNotClash(options: seq<(string, Value)>)
    ensures NoClash(Emitted(options))
  {
    EmittedKeys(options);
    forall key, repeat | 1 <= repeat < Count(Emitted(options), key) ensures !HasKey(Emitted(options), Name(key, repeat)) {
      var i := RepeatOccurs(Emitted(options), key, 0, |Emitted(options)|) by {
        assert Emitted(options)[..|Emitted(options)|] == Emitted(options);
      }
      NumberedIsNeither(key, repeat);
    }
  }

  lemma NumberedIsNeither(key: string, repeat: nat)
    requires repeat >= 1 && (key == OPTION_TYPE || key == OPTION_TREE)
    ensures Name(key, repeat) != OPTION_TYPE && Name(key, repeat) != OPTION_TREE
  {
    assert Name(key, repeat)[|Name(key, repeat)| - 1] == Decimal(repeat)[|Decimal(repeat)| - 1];
    assert OPTION_TYPE[|OPTION_TYPE| - 1] == 'e' && OPTION_TREE[|OPTION_TREE| - 1] == 'e';
  }
}
