/** Configuration fields bound to cells: environment, then file, then explicit flag,
    each written through the field's target. */
module Binding {
  import opened Types

  datatype Value = Text(s: string) | Truth(b: bool) | Number(n: int) | List(items: seq<string>)

  datatype Kind = StringKind | BoolKind | IntKind | SliceKind

  /** A configuration variable. */
  class Cell {
    var v: Value

    constructor (v: Value)
      ensures this.v == v
    {
      this.v := v;
    }
  }

  /** A binding-table row; "" for a key means the field has none in that layer.
      `flagVal` is what the flag package has parsed. */
  datatype Field = Field(kind: Kind, target: Cell, flagName: string, envKey: string, jsonKey: string, flagVal: Value)

  type Environment = string -> string

  /** The decoded config file, `None` if there is none. */
  type ConfigFile = Option<map<string, Json>>

  // ---------- Reading one layer ----------

  const INT64_MAX: int := 0x7FFF_FFFF_FFFF_FFFF

  function Digits(s: string): Option<nat> {
    if s == [] then Some(0)
    else
      var last := s[|s| - 1];
      var init := Digits(s[..|s| - 1]);
      if init.Some? && '0' <= last <= '9' then Some(10 * init.value + (last as int - '0' as int)) else None
  }

  /** `strconv.Atoi` for 64-bit integers. */
  function Atoi(s: string): Option<int> {
    var body := if s != [] && (s[0] == '-' || s[0] == '+') then s[1..] else s;
    if body == [] || Digits(body).None? then None
    else
      var n: int := if s[0] == '-' then 0 - Digits(body).value else Digits(body).value;
      if -INT64_MAX - 1 <= n <= INT64_MAX then Some(n) else None
  }

  lemma {:induction false} DigitsOnly(s: string)
    ensures Digits(s).Some? <==> forall i :: 0 <= i < |s| ==> '0' <= s[i] <= '9'
  {
    if s != [] {
      DigitsOnly(s[..|s| - 1]);
    }
  }

  /** The decimal numeral of `n` after some leading zeros. */
  function Decimal(n: nat, zeros: nat): (s: string)
    ensures s != [] && '0' <= s[0] <= '9'
  {
    if zeros > 0 then "0" + Decimal(n, zeros - 1)
    else if n < 10 then ["0123456789"[n]]
    else Decimal(n / 10, 0) + ["0123456789"[n % 10]]
  }

  lemma {:induction false} ZeroInFront(s: string)
    ensures Digits("0" + s) == Digits(s)
  {
    if s == [] {
      assert Digits("0") == Some(0) by { assert "0"[..0] == []; }
      assert "0" + s == "0";
    } else {
      assert ("0" + s)[..|s|] == "0" + s[..|s| - 1];
      ZeroInFront(s[..|s| - 1]);
    }
  }

  lemma {:induction false} DigitsOfDecimal(n: nat, zeros: nat)
    ensures Digits(Decimal(n, zeros)) == Some(n)
  {
    if zeros > 0 {
      DigitsOfDecimal(n, zeros - 1);
      ZeroInFront(Decimal(n, zeros - 1));
    } else if n >= 10 {
      DigitsOfDecimal(n / 10, 0);
      var d := Decimal(n, 0);
      assert d[..|d| - 1] == Decimal(n / 10, 0);
    } else {
      var d := Decimal(n, 0);
      assert d[..0] == [];
    }
  }

  lemma AtoiUnsigned(d: string, n: int)
    requires d != [] && '0' <= d[0] <= '9' && Digits(d).Some? && Digits(d).value == n
    ensures Atoi(d) == if n < 0x8000_0000_0000_0000 then Some(n) else None
  {
  }

  lemma AtoiSigned(d: string, n: int)
    requires d != [] && Digits(d).Some? && Digits(d).value == n
    ensures Atoi(['+'] + d) == if n < 0x8000_0000_0000_0000 then Some(n) else None
    ensures Atoi(['-'] + d) == if n <= 0x8000_0000_0000_0000 then Some(0 - n) else None
  {
    assert (['+'] + d)[1..] == d && (['-'] + d)[1..] == d;
  }

  /** Decimal numerals are read as what they denote, signed or not, if 64 bits hold it,
      and not at all otherwise. */
  lemma AtoiReadsDecimal(n: nat, zeros: nat)
    ensures var d, k: int := Decimal(n, zeros), n;
            && Atoi(d) == (if k < 0x8000_0000_0000_0000 then Some(k) else None)
            && Atoi(['+'] + d) == (if k < 0x8000_0000_0000_0000 then Some(k) else None)
            && Atoi(['-'] + d) == (if k <= 0x8000_0000_0000_0000 then Some(0 - k) else None)
  {
    DigitsOfDecimal(n, zeros);
    AtoiUnsigned(Decimal(n, zeros), n);
    AtoiSigned(Decimal(n, zeros), n);
  }

  /** What is left of the sign must be digits, and there must be some. */
  lemma AtoiRejects(s: string)
    requires var body := if s != [] && (s[0] == '-' || s[0] == '+') then s[1..] else s;
             body == [] || exists i :: 0 <= i < |body| && !('0' <= body[i] <= '9')
    ensures Atoi(s) == None
  {
    DigitsOnly(if s != [] && (s[0] == '-' || s[0] == '+') then s[1..] else s);
  }

  const COMMA: char := ','

  /** `strings.Split(v, ",")`. */
  function Split(s: string): (parts: seq<string>)
    ensures |parts| > 0
  {
    if s == [] then [""]
    else
      var rest := Split(s[1..]);
      if s[0] == COMMA then [""] + rest else [[s[0]] + rest[0]] + rest[1..]
  }

  function Join(parts: seq<string>): string {
    if parts == [] then ""
    else if |parts| == 1 then parts[0]
    else parts[0] + [COMMA] + Join(parts[1..])
  }

  /** Splitting loses nothing and leaves no separator inside a part. */
  lemma {:induction false} SplitJoins(s: string)
    ensures Join(Split(s)) == s
    ensures forall i :: 0 <= i < |Split(s)| ==> ',' !in Split(s)[i]
  {
    if s != [] {
      SplitJoins(s[1..]);
      var rest := Split(s[1..]);
      if s[0] == COMMA {
        assert Split(s)[1..] == rest;
      } else {
        assert Split(s)[1..] == rest[1..];
      }
    }
  }

  /** Only a non-empty variable counts, and for an integer only one that parses. */
  function EnvValue(f: Field, env: Environment): Option<Value> {
    if f.envKey == "" || env(f.envKey) == "" then None
    else
      var v := env(f.envKey);
      match f.kind
      case StringKind => Some(Text(v))
      case BoolKind => Some(Truth(v == "1" || v == "true"))
      case IntKind => if Atoi(v).Some? then Some(Number(Atoi(v).value)) else None
      case SliceKind => Some(List(Split(v)))
  }

  /** Go's conversion of a float to an integer drops the fraction. */
  function Truncate(r: real): int {
    if r >= 0.0 then r.Floor else -((-r).Floor)
  }

  /** The fraction is dropped towards zero. */
  lemma TruncatesTowardsZero(r: real)
    ensures r >= 0.0 ==> Truncate(r) as real <= r < Truncate(r) as real + 1.0
    ensures r < 0.0 ==> r <= Truncate(r) as real < r + 1.0
  {
  }

  function Strings(items: seq<Json>): seq<string> {
    if items == [] then []
    else
      var last := items[|items| - 1];
      Strings(items[..|items| - 1]) + if last.Str? then [last.s] else []
  }

  /** The strings of a list are those of its parts in order: a string itself, and
      nothing for any other item. */
  lemma {:induction false} StringsInOrder(items: seq<Json>, more: seq<Json>, x: Json)
    ensures Strings(items + more) == Strings(items) + Strings(more)
    ensures Strings([]) == [] && Strings([x]) == if x.Str? then [x.s] else []
  {
    assert [x][..0] == [];
    if more == [] {
      assert items + more == items;
    } else {
      assert (items + more)[..|items + more| - 1] == items + more[..|more| - 1];
      StringsInOrder(items, more[..|more| - 1], x);
    }
  }

  /** Only a value of the field's type counts, and for a list only one with a string in it. */
  function FileValue(f: Field, file: ConfigFile): Option<Value> {
    if f.jsonKey == "" || file.None? || f.jsonKey !in file.value then None
    else
      var v := file.value[f.jsonKey];
      match f.kind
      case StringKind => if v.Str? then Some(Text(v.s)) else None
      case BoolKind => if v.Bool? then Some(Truth(v.b)) else None
      case IntKind => if v.Int? then Some(Number(v.n)) else if v.Frac? then Some(Number(Truncate(v.r))) else None
      case SliceKind => if v.Arr? && Strings(v.items) != [] then Some(List(Strings(v.items))) else None
  }

  function FlagValue(f: Field, explicit: set<string>): Option<Value> {
    if f.flagName in explicit then Some(f.flagVal) else None
  }

  /** The value a field gets: the explicit flag, else the file's, else the
      environment's, else the one its target had. */
  function Resolved(f: Field, env: Environment, file: ConfigFile, explicit: set<string>, initial: Value): Value {
    if FlagValue(f, explicit).Some? then FlagValue(f, explicit).value
    else if FileValue(f, file).Some? then FileValue(f, file).value
    else if EnvValue(f, env).Some? then EnvValue(f, env).value
    else initial
  }

  /** The environment has the usable value `v` for the field. */
  predicate EnvGives(f: Field, env: Environment, v: Value) {
    f.envKey != "" && env(f.envKey) != "" &&
    var text := env(f.envKey);
    match f.kind
    case StringKind => v == Text(text)
    case BoolKind => v == Truth(text == "1" || text == "true")
    case IntKind => v.Number? && Atoi(text) == Some(v.n)
    case SliceKind => v == List(Split(text))
  }

  /** The config file has the well-typed value `v` for the field. */
  predicate FileGives(f: Field, file: ConfigFile, v: Value) {
    f.jsonKey != "" && file.Some? && f.jsonKey in file.value &&
    var j := file.value[f.jsonKey];
    match f.kind
    case StringKind => j.Str? && v == Text(j.s)
    case BoolKind => j.Bool? && v == Truth(j.b)
    case IntKind => (j.Int? && v == Number(j.n)) || (j.Frac? && v == Number(Truncate(j.r)))
    case SliceKind => j.Arr? && Strings(j.items) != [] && v == List(Strings(j.items))
  }

  lemma LayerValues(f: Field, env: Environment, file: ConfigFile, v: Value)
    ensures EnvGives(f, env, v) <==> EnvValue(f, env) == Some(v)
    ensures FileGives(f, file, v) <==> FileValue(f, file) == Some(v)
  {
  }

  // ---------- The writes ----------

  method ApplyEnv(f: Field, env: Environment)
    modifies f.target
    ensures f.target.v == if EnvValue(f, env).Some? then EnvValue(f, env).value else old(f.target.v)
  {
    if f.envKey == "" {
      return;
    }
    var v := env(f.envKey);
    if v != "" {
      match f.kind {
        case StringKind => f.target.v := Text(v);
        case BoolKind => f.target.v := Truth(v == "1" || v == "true");
        case IntKind =>
          var n := Atoi(v);
          if n.Some? {
            f.target.v := Number(n.value);
          }
        case SliceKind => f.target.v := List(Split(v));
      }
    }
  }

  method CollectStrings(items: seq<Json>) returns (res: seq<string>)
    ensures res == Strings(items)
  {
    res := [];
    for i := 0 to |items|
      invariant res == Strings(items[..i])
    {
      assert items[..i + 1][..i] == items[..i];
      if items[i].Str? {
        res := res + [items[i].s];
      }
    }
    assert items[..|items|] == items;
  }

  method ApplyFile(f: Field, file: ConfigFile)
    modifies f.target
    ensures f.target.v == if FileValue(f, file).Some? then FileValue(f, file).value else old(f.target.v)
  {
    if f.jsonKey == "" || file.None? {
      return;
    }
    if f.jsonKey in file.value {
      var v := file.value[f.jsonKey];
      match f.kind {
        case StringKind =>
          if v.Str? { f.target.v := Text(v.s); }
        case BoolKind =>
          if v.Bool? { f.target.v := Truth(v.b); }
        case IntKind =>
          if v.Int? { f.target.v := Number(v.n); }
          if v.Frac? { f.target.v := Number(Truncate(v.r)); }
        case SliceKind =>
          if v.Arr? {
            var res := CollectStrings(v.items);
            if |res| > 0 {
              f.target.v := List(res);
            }
          }
      }
    }
  }

  method ApplyFlag(f: Field, explicit: set<string>)
    modifies f.target
    ensures f.target.v == if f.flagName in explicit then f.flagVal else old(f.target.v)
  {
    if f.flagName in explicit {
      f.target.v := f.flagVal;
    }
  }

  function Targets(fields: seq<Field>): set<Cell> {
    set i | 0 <= i < |fields| :: fields[i].target
  }

  /** What the fields that write to `c` make of its value, one after the other. */
  function Final(fields: seq<Field>, env: Environment, file: ConfigFile, explicit: set<string>, c: Cell, initial: Value): Value {
    if fields == [] then initial
    else
      var last := fields[|fields| - 1];
      var before := Final(fields[..|fields| - 1], env, file, explicit, c, initial);
      if last.target == c then Resolved(last, env, file, explicit, before) else before
  }

  /** The resolution loop, for any table, whether or not its targets are distinct. */
  method Resolve(fields: seq<Field>, env: Environment, file: ConfigFile, explicit: set<string>)
    modifies Targets(fields)
    ensures forall c :: c in Targets(fields) ==> c.v == Final(fields, env, file, explicit, c, old(c.v))
  {
    for i := 0 to |fields|
      invariant forall c :: c in Targets(fields) ==> c.v == Final(fields[..i], env, file, explicit, c, old(c.v))
    {
      var f := fields[i];
      assert f.target in Targets(fields);
      ApplyEnv(f, env);
      ApplyFile(f, file);
      ApplyFlag(f, explicit);
      assert fields[..i + 1][..i] == fields[..i];
    }
    assert fields[..|fields|] == fields;
  }

  // ---------- Precedence ----------

  /** The field finds a value in some layer. */
  predicate Sets(f: Field, env: Environment, file: ConfigFile, explicit: set<string>) {
    FlagValue(f, explicit).Some? || FileValue(f, file).Some? || EnvValue(f, env).Some?
  }

  ghost predicate DistinctTargets(fields: seq<Field>) {
    forall i, j :: 0 <= i < j < |fields| ==> fields[i].target != fields[j].target
  }

  /** A field later than `i` writes to the same target. */
  ghost predicate Overwritten(fields: seq<Field>, env: Environment, file: ConfigFile, explicit: set<string>, i: int)
    requires 0 <= i < |fields|
  {
    exists j :: i < j < |fields| && fields[j].target == fields[i].target && Sets(fields[j], env, file, explicit)
  }

  /** A field that finds a value, and is not overwritten, leaves its target at that
      value, whatever it was before and whatever the other fields do. */
  lemma {:induction false} SettingFieldWins(fields: seq<Field>, env: Environment, file: ConfigFile, explicit: set<string>, initial: Value, i: nat)
    requires i < |fields| && Sets(fields[i], env, file, explicit) && !Overwritten(fields, env, file, explicit, i)
    ensures Final(fields, env, file, explicit, fields[i].target, initial) == Resolved(fields[i], env, file, explicit, initial)
  {
    var n := |fields| - 1;
    if i < n {
      assert fields[..n][i] == fields[i];
      assert !Overwritten(fields[..n], env, file, explicit, i);
      SettingFieldWins(fields[..n], env, file, explicit, initial, i);
      assert fields[n].target == fields[i].target ==> !Sets(fields[n], env, file, explicit);
    }
  }

  /** A target that no field sets keeps its initial value. */
  lemma {:induction false} UnsetKeepsInitial(fields: seq<Field>, env: Environment, file: ConfigFile, explicit: set<string>, c: Cell, initial: Value)
    requires forall j :: 0 <= j < |fields| && fields[j].target == c ==> !Sets(fields[j], env, file, explicit)
    ensures Final(fields, env, file, explicit, c, initial) == initial
  {
    if fields != [] {
      UnsetKeepsInitial(fields[..|fields| - 1], env, file, explicit, c, initial);
    }
  }

  /** With distinct targets every target ends at its own field's explicit flag, else a
      well-typed file value, else a usable environment value, else its initial value:
      no field's result depends on another field or on the order of the table. */
  lemma LayersAreIndependent(fields: seq<Field>, env: Environment, file: ConfigFile, explicit: set<string>, initial: Value, i: nat)
    requires DistinctTargets(fields) && i < |fields|
    ensures Final(fields, env, file, explicit, fields[i].target, initial) == Resolved(fields[i], env, file, explicit, initial)
    ensures var f := fields[i];
            var v := Final(fields, env, file, explicit, f.target, initial);
            if f.flagName in explicit then v == f.flagVal
            else if exists x :: FileGives(f, file, x) then FileGives(f, file, v)
            else if exists x :: EnvGives(f, env, x) then EnvGives(f, env, v)
            else v == initial
  {
    if Sets(fields[i], env, file, explicit) {
      SettingFieldWins(fields, env, file, explicit, initial, i);
    } else {
      UnsetKeepsInitial(fields, env, file, explicit, fields[i].target, initial);
    }
    LayersDecide(fields[i], env, file, explicit, initial);
  }

  lemma LayersDecide(f: Field, env: Environment, file: ConfigFile, explicit: set<string>, initial: Value)
    ensures var v := Resolved(f, env, file, explicit, initial);
            if f.flagName in explicit then v == f.flagVal
            else if exists x :: FileGives(f, file, x) then FileGives(f, file, v)
            else if exists x :: EnvGives(f, env, x) then EnvGives(f, env, v)
            else v == initial
  {
    forall x
      ensures EnvGives(f, env, x) <==> EnvValue(f, env) == Some(x)
      ensures FileGives(f, file, x) <==> FileValue(f, file) == Some(x)
    {
      LayerValues(f, env, file, x);
    }
    if FileValue(f, file).Some? {
      assert FileGives(f, file, FileValue(f, file).value);
    }
    if EnvValue(f, env).Some? {
      assert EnvGives(f, env, EnvValue(f, env).value);
    }
  }

  /** Any two tables with the same fields in whatever order resolve every target alike. */
  lemma OrderIsIrrelevant(fields: seq<Field>, other: seq<Field>, env: Environment, file: ConfigFile, explicit: set<string>, c: Cell, initial: Value)
    requires DistinctTargets(fields) && DistinctTargets(other)
    requires forall f :: f in fields <==> f in other
    ensures Final(fields, env, file, explicit, c, initial) == Final(other, env, file, explicit, c, initial)
  {
    if f :| f in fields && f.target == c {
      var i: nat :| i < |fields| && fields[i] == f;
      assert f in other;
      var j: nat :| j < |other| && other[j] == f;
      LayersAreIndependent(fields, env, file, explicit, initial, i);
      LayersAreIndependent(other, env, file, explicit, initial, j);
    } else {
      forall j | 0 <= j < |other|
        ensures other[j].target != c
      {
        assert other[j] in other;
      }
      UnsetKeepsInitial(fields, env, file, explicit, c, initial);
      UnsetKeepsInitial(other, env, file, explicit, c, initial);
    }
  }

  /** A remark on the loop, not on the program, whose table gives every field a target
      of its own: it resolves field by field and not layer by layer, so were two fields
      to share a target, the later one would decide even against the earlier one's flag. */
  lemma SharedTargetsBreakPrecedence(f: Field, g: Field, env: Environment, file: ConfigFile, explicit: set<string>, initial: Value)
    requires f.target == g.target && f.flagName in explicit && Sets(g, env, file, explicit)
    ensures Final([f, g], env, file, explicit, f.target, initial) == Resolved(g, env, file, explicit, initial)
  {
    SettingFieldWins([f, g], env, file, explicit, initial, 1);
  }
}
