/** The command line's parameter strings: pairs k=v separated by semicolons, where
    a value with commas is a list. */
module ParamParser {
  import opened Basics

  // ----- Splitting and joining -----

  function Split(s: string, c: char): (parts: seq<string>)
    ensures |parts| > 0
  {
    if |s| == 0 then [""]
    else if s[0] == c then [""] + Split(s[1..], c)
    else
      var rest := Split(s[1..], c);
      [[s[0]] + rest[0]] + rest[1..]
  }

  function Join(parts: seq<string>, c: char): string
    requires |parts| > 0
  {
    if |parts| == 1 then parts[0] else parts[0] + [c] + Join(parts[1..], c)
  }

  ghost predicate Free(s: string, c: char) { c !in s }

  lemma {:induction false} SplitFirst(a: string, b: string, c: char)
    requires Free(a, c)
    ensures Split(a + [c] + b, c) == [a] + Split(b, c)
  {
    var s := a + [c] + b;
    if |a| == 0 {
      assert s[1..] == b;
    } else {
      assert s[1..] == a[1..] + [c] + b;
      SplitFirst(a[1..], b, c);
      assert [a[0]] + a[1..] == a;
    }
  }

  lemma {:induction false} SplitWhole(a: string, c: char)
    requires Free(a, c)
    ensures Split(a, c) == [a]
  {
    if |a| > 0 {
      SplitWhole(a[1..], c);
      assert [a[0]] + a[1..] == a;
    }
  }

  /** Splitting undoes joining for parts free of the separator. */
  lemma {:induction false} SplitJoin(parts: seq<string>, c: char)
    requires |parts| > 0 && forall i :: 0 <= i < |parts| ==> Free(parts[i], c)
    ensures Split(Join(parts, c), c) == parts
  {
    if |parts| == 1 {
      SplitWhole(parts[0], c);
    } else {
      SplitFirst(parts[0], Join(parts[1..], c), c);
      SplitJoin(parts[1..], c);
    }
  }

  /** Parts are free of the separator, and of whatever the whole is free of. */
  lemma {:induction false} SplitParts(s: string, c: char, d: char)
    ensures forall i :: 0 <= i < |Split(s, c)| ==> Free(Split(s, c)[i], c)
    ensures Free(s, d) ==> forall i :: 0 <= i < |Split(s, c)| ==> Free(Split(s, c)[i], d)
  {
    if |s| > 0 {
      SplitParts(s[1..], c, d);
    }
  }

  lemma {:induction false} JoinFree(parts: seq<string>, c: char, d: char)
    requires |parts| > 0 && c != d && forall i :: 0 <= i < |parts| ==> Free(parts[i], d)
    ensures Free(Join(parts, c), d)
  {
    if |parts| > 1 {
      JoinFree(parts[1..], c, d);
    }
  }

  // ----- Parsing -----

  datatype Value = Text(text: string) | List(items: seq<string>)

  type ParamMap = map<string, Value>

  function ParsePair(kv: string): Option<(string, Value)> {
    var parts := Split(kv, '=');
    if |parts| != 2 then None
    else
      var items := Split(parts[1], ',');
      Some((parts[0], if |items| == 1 then Text(parts[1]) else List(items)))
  }

  function ParsePairs(pairs: seq<string>): Option<ParamMap> {
    if |pairs| == 0 then Some(map[])
    else
      var last := |pairs| - 1;
      var before, pair := ParsePairs(pairs[..last]), ParsePair(pairs[last]);
      if before.None? || pair.None? then None else Some(before.value[pair.value.0 := pair.value.1])
  }

  function Parse(s: string): Option<ParamMap> {
    if s == "" then Some(map[]) else ParsePairs(Split(s, ';'))
  }

  lemma {:induction false} PrefixParses(pairs: seq<string>, n: nat)
    requires n <= |pairs| && ParsePairs(pairs[..n]).None?
    ensures ParsePairs(pairs).None?
    decreases |pairs| - n
  {
    if n == |pairs| {
      assert pairs[..n] == pairs;
    } else {
      assert pairs[..n + 1][..n] == pairs[..n];
      PrefixParses(pairs, n + 1);
    }
  }

  method ParseParams(paramStr: string) returns (result: Option<ParamMap>)
    ensures result == Parse(paramStr)
  {
    var params: ParamMap := map[];
    if paramStr == "" {
      return Some(params);
    }
    var pairs := Split(paramStr, ';');
    for n := 0 to |pairs|
      invariant ParsePairs(pairs[..n]) == Some(params)
    {
      assert pairs[..n + 1][..n] == pairs[..n];
      var parts := Split(pairs[n], '=');
      if |parts| != 2 {
        PrefixParses(pairs, n + 1);
        return None;
      }
      var key, value := parts[0], parts[1];
      var valueParts := Split(value, ',');
      if |valueParts| == 1 {
        params := params[key := Text(value)];
      } else {
        params := params[key := List(valueParts)];
      }
    }
    assert pairs[..|pairs|] == pairs;
    return Some(params);
  }

  /** What the map means: each of its keys has the value of its last pair. */
  lemma {:induction false} LastPairWins(pairs: seq<string>, m: ParamMap, k: string) returns (i: nat)
    requires ParsePairs(pairs) == Some(m) && k in m
    ensures IsLast(pairs, i, k) && ParsePair(pairs[i]).value.1 == m[k]
  {
    var n := |pairs| - 1;
    var before, pair := ParsePairs(pairs[..n]).value, ParsePair(pairs[n]).value;
    if k == pair.0 {
      i := n;
    } else {
      i := LastPairWins(pairs[..n], before, k);
      assert pairs[..n][i] == pairs[i];
      forall j | i < j < |pairs| ensures !HasKey(pairs[j], k) {
        assert j < n ==> pairs[..n][j] == pairs[j];
      }
    }
  }

  /** Conversely, every pair of an accepted string is well formed and its key is in
      the map. */
  lemma {:induction false} PairKeyPresent(pairs: seq<string>, m: ParamMap, i: nat)
    requires ParsePairs(pairs) == Some(m) && i < |pairs|
    ensures ParsePair(pairs[i]).Some? && ParsePair(pairs[i]).value.0 in m
  {
    var n := |pairs| - 1;
    if i < n {
      PairKeyPresent(pairs[..n], ParsePairs(pairs[..n]).value, i);
      assert pairs[..n][i] == pairs[i];
    }
  }

  predicate HasKey(pair: string, k: string) { ParsePair(pair).Some? && ParsePair(pair).value.0 == k }

  ghost predicate IsLast(pairs: seq<string>, i: int, k: string) {
    && 0 <= i < |pairs| && HasKey(pairs[i], k)
    && forall j :: i < j < |pairs| ==> !HasKey(pairs[j], k)
  }

  // ----- Writing -----

  function ValueText(v: Value): string {
    match v
    case Text(t) => t
    case List(items) => if |items| == 0 then "" else Join(items, ',')
  }

  function WritePair(k: string, v: Value): string { k + "=" + ValueText(v) }

  function WritePairs(m: ParamMap, keys: seq<string>): (pairs: seq<string>)
    requires forall k <- keys :: k in m
    ensures |pairs| == |keys|
  {
    seq(|keys|, i requires 0 <= i < |keys| => WritePair(keys[i], m[keys[i]]))
  }

  function Write(m: ParamMap, keys: seq<string>): string
    requires forall k <- keys :: k in m
  {
    if |keys| == 0 then "" else Join(WritePairs(m, keys), ';')
  }

  ghost predicate Plain(s: string) { Free(s, ';') && Free(s, '=') && Free(s, ',') }

  ghost predicate WritableValue(v: Value) {
    match v
    case Text(t) => Plain(t)
    case List(items) => |items| >= 2 && forall i :: 0 <= i < |items| ==> Plain(items[i])
  }

  /** Keys free of the outer separators, values free of all, lists of two or more. */
  ghost predicate Writable(m: ParamMap) {
    forall k :: k in m ==> Free(k, ';') && Free(k, '=') && WritableValue(m[k])
  }

  /** keys lists the keys of m, each once, in some order. */
  ghost predicate Lists(keys: seq<string>, m: ParamMap) {
    && (forall i :: 0 <= i < |keys| ==> keys[i] in m)
    && (forall k :: k in m ==> k in keys)
    && (forall i, j :: 0 <= i < j < |keys| ==> keys[i] != keys[j])
  }

  lemma {:induction false} ValueTextFree(v: Value)
    requires WritableValue(v)
    ensures Free(ValueText(v), ';') && Free(ValueText(v), '=')
  {
    if v.List? {
      JoinFree(v.items, ',', ';');
      JoinFree(v.items, ',', '=');
    }
  }

  lemma {:induction false} PairRoundTrip(k: string, v: Value)
    requires Free(k, ';') && Free(k, '=') && WritableValue(v)
    ensures ParsePair(WritePair(k, v)) == Some((k, v)) && Free(WritePair(k, v), ';')
  {
    ValueTextFree(v);
    SplitFirst(k, ValueText(v), '=');
    SplitWhole(ValueText(v), '=');
    match v
    case Text(t) => SplitWhole(t, ',');
    case List(items) => SplitJoin(items, ',');
  }

  function Restricted(m: ParamMap, keys: seq<string>): ParamMap
    requires forall k <- keys :: k in m
  {
    map k | k in keys :: m[k]
  }

  lemma {:induction false} RestrictedMore(m: ParamMap, keys: seq<string>, k: string)
    requires k in m && forall x <- keys :: x in m
    ensures Restricted(m, keys + [k]) == Restricted(m, keys)[k := m[k]]
  {
  }

  lemma {:induction false} PairsRoundTrip(m: ParamMap, keys: seq<string>)
    requires Writable(m) && forall k <- keys :: k in m
    ensures ParsePairs(WritePairs(m, keys)) == Some(Restricted(m, keys))
  {
    if |keys| > 0 {
      var n := |keys| - 1;
      assert keys == keys[..n] + [keys[n]];
      PairsRoundTrip(m, keys[..n]);
      assert WritePairs(m, keys)[..n] == WritePairs(m, keys[..n]);
      PairRoundTrip(keys[n], m[keys[n]]);
      LastPairParsed(WritePairs(m, keys), Restricted(m, keys[..n]), keys[n], m[keys[n]]);
      RestrictedMore(m, keys[..n], keys[n]);
    }
  }

  lemma {:induction false} LastPairParsed(pairs: seq<string>, before: ParamMap, k: string, v: Value)
    requires |pairs| > 0 && ParsePairs(pairs[..|pairs| - 1]) == Some(before)
    requires ParsePair(pairs[|pairs| - 1]) == Some((k, v))
    ensures ParsePairs(pairs) == Some(before[k := v])
  {
  }

  /** A parsed map is writable. */
  lemma {:induction false} ParsedIsWritable(pairs: seq<string>)
    requires forall i :: 0 <= i < |pairs| ==> Free(pairs[i], ';')
    requires ParsePairs(pairs).Some?
    ensures Writable(ParsePairs(pairs).value)
  {
    if |pairs| > 0 {
      var n := |pairs| - 1;
      ParsedIsWritable(pairs[..n]);
      PairIsWritable(pairs[n]);
    }
  }

  lemma {:induction false} PairIsWritable(kv: string)
    requires Free(kv, ';') && ParsePair(kv).Some?
    ensures var (k, v) := ParsePair(kv).value; Free(k, ';') && Free(k, '=') && WritableValue(v)
  {
    SplitParts(kv, '=', ';');
    var value := Split(kv, '=')[1];
    SplitParts(value, ',', ';');
    SplitParts(value, ',', '=');
    if |Split(value, ',')| == 1 {
      SplitJoinBack(value, ',');
    }
  }

  lemma {:induction false} SplitJoinBack(s: string, c: char)
    ensures Join(Split(s, c), c) == s
  {
    if |s| > 0 {
      SplitJoinBack(s[1..], c);
      var rest := Split(s[1..], c);
      if s[0] == c {
        assert ([""] + rest)[1..] == rest;
      } else {
        JoinHead(s[0], rest, c);
      }
      assert [s[0]] + s[1..] == s;
    }
  }

  lemma {:induction false} JoinHead(x: char, rest: seq<string>, c: char)
    requires |rest| > 0
    ensures Join([[x] + rest[0]] + rest[1..], c) == [x] + Join(rest, c)
  {
    var parts := [[x] + rest[0]] + rest[1..];
    if |rest| > 1 {
      assert parts[1..] == rest[1..];
    }
  }

  lemma {:induction false} AcceptedIsWritable(s: string)
    requires Parse(s).Some?
    ensures Writable(Parse(s).value)
  {
    if s != "" {
      SplitParts(s, ';', ';');
      ParsedIsWritable(Split(s, ';'));
    }
  }

  lemma {:induction false} WriteRoundTrip(m: ParamMap, keys: seq<string>)
    requires Writable(m) && Lists(keys, m)
    ensures Parse(Write(m, keys)) == Some(m)
  {
    if |keys| > 0 {
      var pairs := WritePairs(m, keys);
      forall i | 0 <= i < |pairs| ensures Free(pairs[i], ';') {
        PairRoundTrip(keys[i], m[keys[i]]);
      }
      SplitJoin(pairs, ';');
      PairsRoundTrip(m, keys);
      WriteNotEmpty(m, keys);
    }
    assert Restricted(m, keys) == m;
  }

  lemma {:induction false} WriteNotEmpty(m: ParamMap, keys: seq<string>)
    requires |keys| > 0 && forall k <- keys :: k in m
    ensures Write(m, keys) != ""
  {
    var pairs := WritePairs(m, keys);
    assert pairs[0] == WritePair(keys[0], m[keys[0]]) && |pairs[0]| > 0;
  }

  /** For any map and any order of its keys, writing and parsing gives the map back
      exactly if the map is writable. */
  lemma {:induction false} RoundTripExactly(m: ParamMap, keys: seq<string>)
    requires Lists(keys, m)
    ensures Parse(Write(m, keys)) == Some(m) <==> Writable(m)
  {
    if Writable(m) {
      WriteRoundTrip(m, keys);
    }
    if Parse(Write(m, keys)) == Some(m) {
      AcceptedIsWritable(Write(m, keys));
    }
  }

  /** Every accepted string round-trips: its map, written in any key order, parses
      to the same map. */
  lemma {:induction false} AcceptedRoundTrips(s: string, keys: seq<string>)
    requires Parse(s).Some? && Lists(keys, Parse(s).value)
    ensures Parse(Write(Parse(s).value, keys)) == Parse(s)
  {
    AcceptedIsWritable(s);
    WriteRoundTrip(Parse(s).value, keys);
  }
}
