/** Checking invocation overrides against a procedure's declared parameters and
    bringing every value to its declared type. */
module ParamPreparation {
  import opened Basics
  import opened Decimal

  /** Values of the dynamic types that matter; Foreign is any other type. */
  datatype Any =
    | Uint(n: nat) | Str(s: string) | Uints(ns: seq<nat>) | Strs(ss: seq<string>)
    | Cca(c: nat) | Ccas(cs: seq<nat>) | Untyped | Foreign

  type ParamMap = map<string, Any>

  datatype ParamSpec = ParamSpec(name: string, default: Any)
  datatype Mode = PerDirection | OncePerRound | OtherMode
  datatype Procedure = Procedure(params: seq<ParamSpec>, mode: Mode, directed: bool)

  predicate SupportsDirection(p: Procedure) {
    p.mode == PerDirection || (p.mode == OncePerRound && p.directed)
  }

  // ----- Scalars -----

  /** Lower case, as far as it can yield ASCII letters: of the other characters only
      the dotted capital I and the Kelvin sign do. */
  function LowerChar(c: char): char {
    if 'A' <= c <= 'Z' then c - 'A' + 'a' else if c == '\U{0130}' then 'i' else if c == '\U{212A}' then 'k' else c
  }

  function Lower(s: string): string { seq(|s|, i requires 0 <= i < |s| => LowerChar(s[i])) }

  function CanonicalDirection(v: Any): Option<Any> {
    if v.Str? && Lower(v.s) == "ul" then Some(Str("ul"))
    else if v.Str? && Lower(v.s) == "dl" then Some(Str("dl"))
    else None
  }

  /** Decimal digits only, below 2^32. */
  function ParseUint(s: string): Option<nat> {
    if |s| > 0 && AllDigits(s) && Value(s) < 0x1_0000_0000 then Some(Value(s)) else None
  }

  const CCA_NAMES: seq<string> := [
    "cubic", "cubic-nohy", "hystartpp", "search", "suss", "bbr1", "bbr3", "illinois", "leocc", "satpipe"]

  function IndexOf(names: seq<string>, name: string, i: nat): Option<nat>
    decreases |names| - i
  {
    if i >= |names| then None else if names[i] == name then Some(i) else IndexOf(names, name, i + 1)
  }

  function ParseCca(s: string): Option<nat> { IndexOf(CCA_NAMES, Lower(s), 0) }

  function ParseAll(ss: seq<string>, parse: string -> Option<nat>): Option<seq<nat>> {
    if |ss| == 0 then Some([])
    else
      var before, last := ParseAll(ss[..|ss| - 1], parse), parse(ss[|ss| - 1]);
      if before.None? || last.None? then None else Some(before.value + [last.value])
  }

  /** A list parses exactly if all its elements do, element by element. */
  lemma {:induction false} ParseAllElements(ss: seq<string>, parse: string -> Option<nat>)
    ensures ParseAll(ss, parse).Some? <==> forall i :: 0 <= i < |ss| ==> parse(ss[i]).Some?
    ensures ParseAll(ss, parse).Some? ==>
              (&& |ParseAll(ss, parse).value| == |ss|
               && forall i :: 0 <= i < |ss| ==> parse(ss[i]) == Some(ParseAll(ss, parse).value[i]))
  {
    if |ss| > 0 {
      var n := |ss| - 1;
      ParseAllElements(ss[..n], parse);
      assert forall i :: 0 <= i < n ==> ss[..n][i] == ss[i];
    }
  }

  // ----- Overrides by declared type -----

  predicate Supported(default: Any) {
    default.Uint? || default.Str? || default.Uints? || default.Strs? || default.Ccas?
  }

  predicate SameType(a: Any, b: Any) {
    || (a.Uint? && b.Uint?) || (a.Str? && b.Str?)
    || (a.Uints? && b.Uints?) || (a.Strs? && b.Strs?) || (a.Ccas? && b.Ccas?)
  }

  function Boxed(n: Option<nat>, box: nat -> Any): Option<Any> { if n.None? then None else Some(box(n.value)) }

  function BoxedList(ns: Option<seq<nat>>, box: seq<nat> -> Any): Option<Any> {
    if ns.None? then None else Some(box(ns.value))
  }

  /** The override as a value of the default's type; a single value for a list
      parameter becomes a list of one. */
  function ApplyOverride(default: Any, v: Any): Option<Any> {
    match default
    case Uint(_) =>
      (match v case Uint(_) => Some(v) case Str(s) => Boxed(ParseUint(s), (n: nat) => Uint(n)) case _ => None)
    case Str(_) => if v.Str? then Some(v) else None
    case Uints(_) =>
      (match v
       case Uints(_) => Some(v)
       case Uint(n) => Some(Uints([n]))
       case Str(s) => Boxed(ParseUint(s), (n: nat) => Uints([n]))
       case Strs(ss) => BoxedList(ParseAll(ss, ParseUint), ns => Uints(ns))
       case _ => None)
    case Strs(_) => (match v case Strs(_) => Some(v) case Str(s) => Some(Strs([s])) case _ => None)
    case Ccas(_) =>
      (match v
       case Ccas(_) => Some(v)
       case Cca(c) => Some(Ccas([c]))
       case Str(s) => Boxed(ParseCca(s), (c: nat) => Ccas([c]))
       case Strs(ss) => BoxedList(ParseAll(ss, ParseCca), cs => Ccas(cs))
       case _ => None)
    case _ => None
  }

  lemma {:induction false} OverrideHasDeclaredType(default: Any, v: Any)
    ensures ApplyOverride(default, v).Some? ==> SameType(default, ApplyOverride(default, v).value)
    ensures Supported(default) && SameType(default, v) ==> ApplyOverride(default, v) == Some(v)
  {
  }

  // ----- What an override means -----

  /** s is a plain decimal numeral for n, which has 32 bits. */
  predicate Denotes(s: string, n: nat) { |s| > 0 && AllDigits(s) && ParseInt(s) == Some(n) && n < 0x1_0000_0000 }

  /** s is name up to the case of its letters. */
  predicate Spells(s: string, name: string) { |s| == |name| && forall i :: 0 <= i < |s| ==> IsCaseOf(s[i], name[i]) }

  /** c is the lower-case character l or its capital. */
  predicate IsCaseOf(c: char, l: char) {
    || c == l || ('a' <= l <= 'z' && (c as int) + 32 == l as int)
    || (l == 'i' && c == '\U{0130}') || (l == 'k' && c == '\U{212A}')
  }

  predicate IsPlain(name: string) {
    forall i :: 0 <= i < |name| ==> 'a' <= name[i] <= 'z' || '0' <= name[i] <= '9' || name[i] == '-'
  }

  lemma {:induction false} LowerIsCase(s: string, name: string)
    requires IsPlain(name)
    ensures Lower(s) == name <==> Spells(s, name)
  {
    if Spells(s, name) {
      assert forall i :: 0 <= i < |s| ==> Lower(s)[i] == name[i];
    }
  }

  /** s spells the name of the congestion control algorithm c. */
  predicate NamesCca(s: string, c: nat) { c < |CCA_NAMES| && Spells(s, CCA_NAMES[c]) }

  predicate Elementwise(ss: seq<string>, ns: seq<nat>, means: (string, nat) -> bool) {
    |ss| == |ns| && forall i :: 0 <= i < |ss| ==> means(ss[i], ns[i])
  }

  /** r is the override v as a value of the default's type: v itself if it has that
      type, the value it denotes, or a list of the values denoted, where a single
      value stands for a list of one. */
  predicate Converts(default: Any, v: Any, r: Any) {
    || (SameType(default, v) && r == v)
    || (default.Uint? && v.Str? && r.Uint? && Denotes(v.s, r.n))
    || (default.Uints? && v.Uint? && r == Uints([v.n]))
    || (default.Uints? && v.Str? && r.Uints? && Elementwise([v.s], r.ns, Denotes))
    || (default.Uints? && v.Strs? && r.Uints? && Elementwise(v.ss, r.ns, Denotes))
    || (default.Strs? && v.Str? && r == Strs([v.s]))
    || (default.Ccas? && v.Cca? && r == Ccas([v.c]))
    || (default.Ccas? && v.Str? && r.Ccas? && Elementwise([v.s], r.cs, NamesCca))
    || (default.Ccas? && v.Strs? && r.Ccas? && Elementwise(v.ss, r.cs, NamesCca))
  }

  lemma {:induction false} ParseUintExactly(s: string, n: nat)
    ensures ParseUint(s) == Some(n) <==> Denotes(s, n)
  {
  }

  lemma {:induction false} IndexOfExactly(names: seq<string>, name: string, i: nat, c: nat)
    requires AllDifferent(names)
    ensures IndexOf(names, name, i) == Some(c) <==> i <= c < |names| && names[c] == name
    decreases |names| - i
  {
    if i < |names| && names[i] != name {
      IndexOfExactly(names, name, i + 1, c);
    }
  }

  predicate AllDifferent(names: seq<string>) { forall j, k :: 0 <= j < k < |names| ==> names[j] != names[k] }

  lemma {:induction false} NamesDiffer()
    ensures AllDifferent(CCA_NAMES)
  {
  }

  lemma {:induction false} NameIsPlain(c: nat)
    requires c < |CCA_NAMES|
    ensures IsPlain(CCA_NAMES[c])
  {
  }

  lemma {:induction false} ParseCcaExactly(s: string, c: nat)
    ensures ParseCca(s) == Some(c) <==> NamesCca(s, c)
  {
    NamesDiffer();
    IndexOfExactly(CCA_NAMES, Lower(s), 0, c);
    if c < |CCA_NAMES| {
      NameIsPlain(c);
      LowerIsCase(s, CCA_NAMES[c]);
    }
  }

  lemma {:induction false} ParseAllExactly(ss: seq<string>, parse: string -> Option<nat>, means: (string, nat) -> bool,
                                           ns: seq<nat>)
    requires forall s, n: nat :: parse(s) == Some(n) <==> means(s, n)
    ensures ParseAll(ss, parse) == Some(ns) <==> Elementwise(ss, ns, means)
  {
    ParseAllElements(ss, parse);
    if Elementwise(ss, ns, means) {
      forall i | 0 <= i < |ss| ensures parse(ss[i]) == Some(ns[i]) {
        assert means(ss[i], ns[i]);
      }
      assert ParseAll(ss, parse).value == ns;
    } else if ParseAll(ss, parse) == Some(ns) {
      forall i | 0 <= i < |ss| ensures means(ss[i], ns[i]) {
        assert parse(ss[i]) == Some(ns[i]);
      }
    }
  }

  lemma {:induction false} UintsExactly(ss: seq<string>, ns: seq<nat>)
    ensures ParseAll(ss, ParseUint) == Some(ns) <==> Elementwise(ss, ns, Denotes)
  {
    forall s, n: nat ensures ParseUint(s) == Some(n) <==> Denotes(s, n) {
      ParseUintExactly(s, n);
    }
    ParseAllExactly(ss, ParseUint, Denotes, ns);
  }

  lemma {:induction false} CcasExactly(ss: seq<string>, cs: seq<nat>)
    ensures ParseAll(ss, ParseCca) == Some(cs) <==> Elementwise(ss, cs, NamesCca)
  {
    forall s, c: nat ensures ParseCca(s) == Some(c) <==> NamesCca(s, c) {
      ParseCcaExactly(s, c);
    }
    ParseAllExactly(ss, ParseCca, NamesCca, cs);
  }

  /** An override is turned into r exactly if r is what it means, and refused if it
      means nothing. */
  lemma {:induction false} OverrideExactly(default: Any, v: Any, r: Any)
    ensures ApplyOverride(default, v) == Some(r) <==> Converts(default, v, r)
  {
    match r
    case Uint(n) =>
      if v.Str? {
        ParseUintExactly(v.s, n);
      }
    case Uints(ns) =>
      if v.Strs? {
        UintsExactly(v.ss, ns);
      } else if v.Str? {
        SingleUint(v.s, ns);
      }
    case Ccas(cs) =>
      if v.Strs? {
        CcasExactly(v.ss, cs);
      } else if v.Str? {
        SingleCca(v.s, cs);
      }
    case _ =>
  }

  lemma {:induction false} SingleUint(s: string, ns: seq<nat>)
    ensures Boxed(ParseUint(s), (n: nat) => Uints([n])) == Some(Uints(ns)) <==> Elementwise([s], ns, Denotes)
  {
    if |ns| == 1 {
      ParseUintExactly(s, ns[0]);
      assert ns == [ns[0]];
    }
  }

  lemma {:induction false} SingleCca(s: string, cs: seq<nat>)
    ensures Boxed(ParseCca(s), (c: nat) => Ccas([c])) == Some(Ccas(cs)) <==> Elementwise([s], cs, NamesCca)
  {
    if |cs| == 1 {
      ParseCcaExactly(s, cs[0]);
      assert cs == [cs[0]];
    }
  }

  /** r is the direction that v spells. */
  predicate SpellsDirection(v: Any, r: Any) {
    && v.Str?
    && ((r == Str("ul") && v.s in {"ul", "uL", "Ul", "UL"}) || (r == Str("dl") && v.s in {"dl", "dL", "Dl", "DL"}))
  }

  lemma {:induction false} DirectionExactly(v: Any, r: Any)
    ensures CanonicalDirection(v) == Some(r) <==> SpellsDirection(v, r)
  {
    if v.Str? {
      if |v.s| == 2 {
        assert v.s == [v.s[0], v.s[1]];
        assert Lower(v.s) == [LowerChar(v.s[0]), LowerChar(v.s[1])];
      } else {
        assert |Lower(v.s)| == |v.s|;
      }
    }
  }

  // ----- Preparation -----

  predicate DefaultsSupported(params: seq<ParamSpec>) {
    forall i :: 0 <= i < |params| ==> Supported(params[i].default)
  }

  /** Declared parameters with their defaults; of equal names the last one counts. */
  function Declared(params: seq<ParamSpec>): ParamMap {
    if |params| == 0 then map[]
    else
      var spec := params[|params| - 1];
      Declared(params[..|params| - 1])[spec.name := spec.default]
  }

  /** One override: the value it leads to, or none if it is refused. */
  function Applied(p: Procedure, specs: ParamMap, key: string, v: Any): Option<Any> {
    if key == "direction" then (if SupportsDirection(p) then CanonicalDirection(v) else None)
    else if key !in specs then None
    else ApplyOverride(specs[key], v)
  }

  predicate AllAccepted(p: Procedure, specs: ParamMap, overrides: ParamMap) {
    forall k :: k in overrides ==> Applied(p, specs, k, overrides[k]).Some?
  }

  /** The defaults with the overrides of the given keys applied. */
  function Merged(p: Procedure, specs: ParamMap, overrides: ParamMap, keys: set<string>): ParamMap
    requires keys <= overrides.Keys && forall k :: k in keys ==> Applied(p, specs, k, overrides[k]).Some?
  {
    map k | k in specs.Keys + keys :: if k in keys then Applied(p, specs, k, overrides[k]).value else specs[k]
  }

  /** Preparation without any order of traversal. */
  function Prepared(p: Procedure, overrides: ParamMap): Option<ParamMap> {
    var specs := Declared(p.params);
    if DefaultsSupported(p.params) && AllAccepted(p, specs, overrides)
    then Some(Merged(p, specs, overrides, overrides.Keys))
    else None
  }

  ghost predicate Enumerates(order: seq<string>, keys: set<string>) {
    && (forall i :: 0 <= i < |order| ==> order[i] in keys)
    && (forall k :: k in keys ==> k in order)
  }

  function KeySet(order: seq<string>): set<string> { set k | k in order }

  /** Copies the defaults, or refuses an unsupported one. */
  method CopyDefaults(params: seq<ParamSpec>) returns (prepared: Option<ParamMap>)
    ensures prepared == if DefaultsSupported(params) then Some(Declared(params)) else None
  {
    var copied: ParamMap := map[];
    for i := 0 to |params|
      invariant copied == Declared(params[..i]) && DefaultsSupported(params[..i])
    {
      assert params[..i + 1][..i] == params[..i];
      if !Supported(params[i].default) {
        return None;
      }
      copied := copied[params[i].name := params[i].default];
    }
    assert params[..|params|] == params;
    return Some(copied);
  }

  lemma {:induction false} MergeStep(p: Procedure, specs: ParamMap, overrides: ParamMap, keys: set<string>, k: string)
    requires keys <= overrides.Keys && (forall x :: x in keys ==> Applied(p, specs, x, overrides[x]).Some?)
    requires k in overrides && Applied(p, specs, k, overrides[k]).Some?
    ensures Merged(p, specs, overrides, keys + {k}) ==
              Merged(p, specs, overrides, keys)[k := Applied(p, specs, k, overrides[k]).value]
  {
  }

  /** The overrides are visited in an arbitrary order, and the outcome does not
      depend on it. */
  method PrepareParams(p: Procedure, overrides: ParamMap, order: seq<string>) returns (result: Option<ParamMap>)
    requires Enumerates(order, overrides.Keys)
    ensures result == Prepared(p, overrides)
  {
    var defaults := CopyDefaults(p.params);
    if defaults.None? {
      return None;
    }
    var specs := defaults.value;
    var prepared := specs;
    ghost var done: set<string> := {};
    assert Merged(p, specs, overrides, {}) == specs;
    for i := 0 to |order|
      invariant done == KeySet(order[..i]) && done <= overrides.Keys
      invariant forall k :: k in done ==> Applied(p, specs, k, overrides[k]).Some?
      invariant prepared == Merged(p, specs, overrides, done)
    {
      var key := order[i];
      var value := Applied(p, specs, key, overrides[key]);
      if value.None? {
        return None;
      }
      MergeStep(p, specs, overrides, done, key);
      prepared := prepared[key := value.value];
      assert KeySet(order[..i + 1]) == KeySet(order[..i]) + {key};
      done := done + {key};
    }
    assert order[..|order|] == order;
    assert done == overrides.Keys;
    return Some(prepared);
  }

  // ----- Properties -----

  lemma {:induction false} DeclaredKeys(params: seq<ParamSpec>)
    ensures forall k :: k in Declared(params) <==> exists i :: 0 <= i < |params| && params[i].name == k
    ensures DefaultsSupported(params) ==> forall k :: k in Declared(params) ==> Supported(Declared(params)[k])
  {
    if |params| > 0 {
      var n := |params| - 1;
      DeclaredKeys(params[..n]);
      forall k ensures k in Declared(params) <==> exists i :: 0 <= i < |params| && params[i].name == k {
        if k in Declared(params[..n]) {
          var i :| 0 <= i < n && params[..n][i].name == k;
          assert params[i].name == k;
        }
        if i :| 0 <= i < |params| && params[i].name == k {
          assert i < n ==> params[..n][i].name == k;
        }
      }
    }
  }

  /** d is the default of parameter k: that of its last declaration. */
  predicate HasDefault(params: seq<ParamSpec>, k: string, d: Any) {
    exists i :: 0 <= i < |params| && params[i] == ParamSpec(k, d) && !Redeclared(params, k, i + 1)
  }

  predicate Redeclared(params: seq<ParamSpec>, k: string, from: nat) {
    exists j :: from <= j < |params| && params[j].name == k
  }

  lemma {:induction false} DefaultExactly(params: seq<ParamSpec>, k: string, d: Any)
    ensures HasDefault(params, k, d) <==> k in Declared(params) && Declared(params)[k] == d
  {
    if |params| > 0 {
      var n := |params| - 1;
      DefaultExactly(params[..n], k, d);
      if params[n].name == k {
        assert !Redeclared(params, k, n + 1);
        forall i: nat | i <= n ensures Redeclared(params, k, i) {
          assert params[n].name == k;
        }
      } else {
        EarlierDefault(params, k, d);
      }
    }
  }

  lemma {:induction false} EarlierDefault(params: seq<ParamSpec>, k: string, d: Any)
    requires |params| > 0 && params[|params| - 1].name != k
    ensures HasDefault(params, k, d) <==> HasDefault(params[..|params| - 1], k, d)
  {
    var n := |params| - 1;
    var before := params[..n];
    forall i: nat | i <= n ensures Redeclared(params, k, i) <==> Redeclared(before, k, i) {
      if j :| i <= j < |params| && params[j].name == k {
        assert before[j].name == k;
      }
      if j :| i <= j < n && before[j].name == k {
        assert params[j].name == k;
      }
    }
    if i :| 0 <= i < |params| && params[i] == ParamSpec(k, d) && !Redeclared(params, k, i + 1) {
      assert before[i] == ParamSpec(k, d) && !Redeclared(before, k, i + 1);
    }
    if i :| 0 <= i < n && before[i] == ParamSpec(k, d) && !Redeclared(before, k, i + 1) {
      assert params[i] == ParamSpec(k, d) && !Redeclared(params, k, i + 1);
    }
  }

  /** x is what parameter k is to be: a direction as it was spelled, another override
      in its declared type, and without an override the default. */
  ghost predicate IsValue(p: Procedure, overrides: ParamMap, k: string, x: Any) {
    if k !in overrides then HasDefault(p.params, k, x)
    else if k == "direction" then SupportsDirection(p) && SpellsDirection(overrides[k], x)
    else exists d :: HasDefault(p.params, k, d) && Converts(d, overrides[k], x)
  }

  /** m is the outcome of preparation: all defaults are of supported types, the keys
      are the declared and the overridden ones, and each has its value. */
  ghost predicate IsPreparation(p: Procedure, overrides: ParamMap, m: ParamMap) {
    && DefaultsSupported(p.params)
    && (forall k :: k in m <==> IsDeclared(p, k) || k in overrides)
    && (forall k :: k in m ==> IsValue(p, overrides, k, m[k]))
  }

  lemma {:induction false} AppliedExactly(p: Procedure, overrides: ParamMap, k: string, x: Any)
    requires k in overrides
    ensures Applied(p, Declared(p.params), k, overrides[k]) == Some(x) <==> IsValue(p, overrides, k, x)
  {
    var specs := Declared(p.params);
    if k == "direction" {
      DirectionExactly(overrides[k], x);
    } else {
      if k in specs {
        DefaultExactly(p.params, k, specs[k]);
        OverrideExactly(specs[k], overrides[k], x);
      }
      forall d | HasDefault(p.params, k, d) ensures k in specs && specs[k] == d {
        DefaultExactly(p.params, k, d);
      }
    }
  }

  /** Preparation yields m exactly if m is what the declaration and the overrides
      mean; in particular it fails exactly if they have no meaning. */
  lemma {:induction false} PreparedExactly(p: Procedure, overrides: ParamMap, m: ParamMap)
    ensures Prepared(p, overrides) == Some(m) <==> IsPreparation(p, overrides, m)
  {
    DeclaredKeys(p.params);
    if Prepared(p, overrides) == Some(m) {
      PreparedIsPreparation(p, overrides, m);
    }
    if IsPreparation(p, overrides, m) {
      PreparationIsPrepared(p, overrides, m);
    }
  }

  lemma {:induction false} PreparedIsPreparation(p: Procedure, overrides: ParamMap, m: ParamMap)
    requires Prepared(p, overrides) == Some(m)
    ensures IsPreparation(p, overrides, m)
  {
    var specs := Declared(p.params);
    DeclaredKeys(p.params);
    forall k | k in m ensures IsValue(p, overrides, k, m[k]) {
      if k in overrides {
        AppliedExactly(p, overrides, k, m[k]);
      } else {
        DefaultExactly(p.params, k, specs[k]);
      }
    }
  }

  lemma {:induction false} PreparationIsPrepared(p: Procedure, overrides: ParamMap, m: ParamMap)
    requires IsPreparation(p, overrides, m)
    ensures Prepared(p, overrides) == Some(m)
  {
    var specs := Declared(p.params);
    DeclaredKeys(p.params);
    forall k | k in m
      ensures k in overrides ==> Applied(p, specs, k, overrides[k]) == Some(m[k])
      ensures k !in overrides ==> k in specs && specs[k] == m[k]
    {
      assert IsValue(p, overrides, k, m[k]);
      if k in overrides {
        AppliedExactly(p, overrides, k, m[k]);
      } else {
        DefaultExactly(p.params, k, m[k]);
      }
    }
    MergedExactly(p, specs, overrides, m);
  }

  lemma {:induction false} MergedExactly(p: Procedure, specs: ParamMap, overrides: ParamMap, m: ParamMap)
    requires m.Keys == specs.Keys + overrides.Keys
    requires forall k :: k in m && k in overrides ==> Applied(p, specs, k, overrides[k]) == Some(m[k])
    requires forall k :: k in m && k !in overrides ==> specs[k] == m[k]
    ensures AllAccepted(p, specs, overrides) && Merged(p, specs, overrides, overrides.Keys) == m
  {
    forall k | k in overrides ensures Applied(p, specs, k, overrides[k]).Some? {
      assert k in m;
    }
  }

  predicate IsDeclared(p: Procedure, k: string) { exists i :: 0 <= i < |p.params| && p.params[i].name == k }

  /** The prepared keys are the declared ones, plus direction if it was supplied. */
  lemma {:induction false} PreparedKeys(p: Procedure, overrides: ParamMap, k: string)
    requires Prepared(p, overrides).Some?
    ensures k in Prepared(p, overrides).value <==> IsDeclared(p, k) || (k == "direction" && k in overrides)
  {
    DeclaredKeys(p.params);
  }

  /** Every prepared value other than the direction has its declared type; a
      supplied direction is "ul" or "dl". */
  lemma {:induction false} PreparedTypes(p: Procedure, overrides: ParamMap, k: string)
    requires Prepared(p, overrides).Some? && k in Prepared(p, overrides).value
    ensures k != "direction" ==>
              k in Declared(p.params) && SameType(Declared(p.params)[k], Prepared(p, overrides).value[k])
    ensures k == "direction" && k in overrides ==> IsDirection(Prepared(p, overrides).value[k])
  {
    DeclaredKeys(p.params);
    if k in overrides && k != "direction" {
      OverrideHasDeclaredType(Declared(p.params)[k], overrides[k]);
    }
  }

  predicate IsDirection(v: Any) { v == Str("ul") || v == Str("dl") }

  lemma {:induction false} CanonicalFixed(v: Any)
    ensures CanonicalDirection(v) == Some(v) <==> IsDirection(v)
    ensures CanonicalDirection(v).Some? ==> IsDirection(CanonicalDirection(v).value)
  {
    assert Lower("ul") == "ul" && Lower("dl") == "dl";
  }

  lemma {:induction false} ValueFixed(p: Procedure, overrides: ParamMap, k: string)
    requires Prepared(p, overrides).Some? && k in Prepared(p, overrides).value && k != "direction"
    ensures Applied(p, Declared(p.params), k, Prepared(p, overrides).value[k]) == Some(Prepared(p, overrides).value[k])
  {
    PreparedTypes(p, overrides, k);
    DeclaredKeys(p.params);
    OverrideHasDeclaredType(Declared(p.params)[k], Prepared(p, overrides).value[k]);
  }

  /** A declared direction that is left at its default would have to pass as a
      supplied one. */
  predicate DirectionStable(p: Procedure, overrides: ParamMap) {
    var specs := Declared(p.params);
    "direction" in specs && "direction" !in overrides ==> SupportsDirection(p) && IsDirection(specs["direction"])
  }

  lemma {:induction false} DirectionFixed(p: Procedure, overrides: ParamMap)
    requires Prepared(p, overrides).Some? && "direction" in Prepared(p, overrides).value
    ensures var v := Prepared(p, overrides).value["direction"];
            Applied(p, Declared(p.params), "direction", v) == Some(v) <==> DirectionStable(p, overrides)
  {
    CanonicalFixed(Prepared(p, overrides).value["direction"]);
    if "direction" in overrides {
      CanonicalFixed(overrides["direction"]);
    }
  }

  /** Preparing prepared parameters changes nothing, exactly if no declared
      direction was left at a default that is not itself an acceptable one. */
  lemma {:induction false} IdempotentExactly(p: Procedure, overrides: ParamMap)
    requires Prepared(p, overrides).Some?
    ensures Prepared(p, Prepared(p, overrides).value) == Prepared(p, overrides) <==> DirectionStable(p, overrides)
  {
    var specs, m := Declared(p.params), Prepared(p, overrides).value;
    forall k | k in m && k != "direction" ensures Applied(p, specs, k, m[k]) == Some(m[k]) {
      ValueFixed(p, overrides, k);
    }
    if "direction" in m {
      DirectionFixed(p, overrides);
    }
    if DirectionStable(p, overrides) {
      assert Merged(p, specs, m, m.Keys) == m;
    } else {
      assert Applied(p, specs, "direction", m["direction"]) != Some(m["direction"]);
      if Prepared(p, m).Some? {
        assert Prepared(p, m).value["direction"] == Applied(p, specs, "direction", m["direction"]).value;
      }
    }
  }

  /** Registration refuses procedures that declare a direction, so preparation is
      idempotent for every registered procedure. */
  lemma {:induction false} RegisteredIsIdempotent(p: Procedure, overrides: ParamMap)
    requires !IsDeclared(p, "direction") && Prepared(p, overrides).Some?
    ensures Prepared(p, Prepared(p, overrides).value) == Prepared(p, overrides)
  {
    DeclaredKeys(p.params);
    IdempotentExactly(p, overrides);
  }
}
