/**
  The values a change tracker observes: the data that survives a round trip
  through JSON text (section 3 of RFC 8259), with numbers kept as integers.
  The module also gives the two views of a value that the comparison in
  src/composables/hasNonSavedChanges.ts relies on: its runtime kind (`typeof`)
  and, for arrays and objects, its own enumerable keys (`Object.keys`) and the
  member found under a key (`a[key]`).
*/
module JsonValues {

  datatype Json =
    | Null
    | Bool(b: bool)
    | Num(n: int)
    | Str(s: string)
    | Arr(items: seq<Json>)
    | Obj(fields: map<string, Json>)

  /** The answers `typeof` gives on JSON data; `null` and arrays are both "object". */
  datatype Kind = ObjectKind | BooleanKind | NumberKind | StringKind

  function TypeOf(j: Json): (t: Kind)
    ensures t == ObjectKind <==> j.Null? || j.Arr? || j.Obj?
  {
    match j
    case Null => ObjectKind
    case Bool(_) => BooleanKind
    case Num(_) => NumberKind
    case Str(_) => StringKind
    case Arr(_) => ObjectKind
    case Obj(_) => ObjectKind
  }

  /** Arrays and objects: the values that have keys. */
  predicate IsComposite(j: Json)
  {
    j.Arr? || j.Obj?
  }

  predicate IsDigit(c: char)
  {
    '0' as int <= c as int <= '9' as int
  }

  function DigitChar(d: nat): (c: char)
    requires d < 10
    ensures IsDigit(c)
  {
    ('0' as int + d) as char
  }

  /** The value of a string of decimal digits. */
  function ParseIndex(k: string): nat
    requires forall i :: 0 <= i < |k| ==> IsDigit(k[i])
  {
    if |k| == 0 then 0
    else
      assert IsDigit(k[|k| - 1]);
      10 * ParseIndex(k[..|k| - 1]) + (k[|k| - 1] as int - '0' as int)
  }

  /**
    The key under which an array holds its element at index `n`: the
    decimal numeral of `n`, without leading zeros. Reading the numeral back
    gives `n`, so distinct indices have distinct keys.
  */
  function IndexKey(n: nat): (k: string)
    ensures |k| >= 1
    ensures forall i :: 0 <= i < |k| ==> IsDigit(k[i])
    ensures ParseIndex(k) == n
    ensures k[0] == '0' ==> n == 0
    decreases n
  {
    if n < 10 then [DigitChar(n)]
    else
      var prefix := IndexKey(n / 10);
      var k := prefix + [DigitChar(n % 10)];
      assert k[..|k| - 1] == prefix;
      k
  }

  /** The keys of an array of length `n`: the numerals of 0 .. n-1. */
  function IndexKeys(n: nat): set<string>
  {
    set i | 0 <= i < n :: IndexKey(i)
  }

  lemma {:induction false} IndexKeysCount(n: nat)
    ensures |IndexKeys(n)| == n
  {
    if n > 0 {
      IndexKeysCount(n - 1);
      assert IndexKeys(n) == IndexKeys(n - 1) + {IndexKey(n - 1)};
      assert IndexKey(n - 1) !in IndexKeys(n - 1);
    } else {
      assert IndexKeys(0) == {};
    }
  }

  /** `Object.keys(j)`, as a set: key order plays no part in the comparison. */
  function Keys(j: Json): (ks: set<string>)
    requires IsComposite(j)
    ensures |ks| == if j.Arr? then |j.items| else |j.fields|
  {
    match j
    case Arr(s) => IndexKeysCount(|s|); IndexKeys(|s|)
    case Obj(m) => m.Keys
  }

  /** `j[k]` for a key `k` that `Object.keys(j)` lists. */
  function Member(j: Json, k: string): (r: Json)
    requires IsComposite(j) && k in Keys(j)
    ensures j.Obj? ==> k in j.fields && r == j.fields[k]
  {
    match j
    case Arr(s) => s[ParseIndex(k)]
    case Obj(m) => m[k]
  }

  /** An array has exactly one key per element, and under the i-th key sits the i-th element. */
  lemma ArrayKeys(s: seq<Json>)
    ensures |Keys(Arr(s))| == |s|
    ensures forall i :: 0 <= i < |s| ==> IndexKey(i) in Keys(Arr(s)) && Member(Arr(s), IndexKey(i)) == s[i]
    ensures forall k :: k in Keys(Arr(s)) ==> exists i :: 0 <= i < |s| && k == IndexKey(i)
  {
    IndexKeysCount(|s|);
  }
}
