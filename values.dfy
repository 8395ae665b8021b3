/**
 * The values the route-pattern layer works on: constraints, the value map handed
 * to the expanders, the errors they raise, and the host capabilities (URI
 * escaping, query serialisation) that the layer calls but does not define.
 */
module Values {

  datatype Option<+T> = None | Some(value: T)

  datatype Result<+T, +E> = Success(value: T) | Failure(error: E)

  /**
   * A per-parameter constraint: the string form of the regular expression
   * (`${regex}`, e.g. "/^\d+$/") and its `test`, which the expanders also call
   * on an absent value (`None` stands for JavaScript's `undefined`).
   */
  datatype Constraint = Constraint(text: string, test: Option<string> -> bool)

  /** Constraints by parameter name; a name is constrained iff it is a key. */
  type Patterns = map<string, Constraint>

  /**
   * One own property of a value object. Values are already coerced to
   * strings; `None` is a property whose value is `undefined`.
   */
  datatype Entry = Entry(key: string, value: Option<string>)

  /** A value object as its own properties in insertion order. */
  type Params = seq<Entry>

  /** `params[k]`: the value of the first property named `k`, `None` when there is none. */
  function Get(p: Params, k: string): (v: Option<string>)
    ensures v.Some? ==> exists i | 0 <= i < |p| :: p[i] == Entry(k, v)
    ensures (forall i | 0 <= i < |p| :: p[i].key != k) ==> v == None
  {
    if p == [] then None
    else if p[0].key == k then p[0].value
    else Get(p[1..], k)
  }

  /** The position of the first property named `k`. */
  function FirstIndex(p: Params, k: string): (i: nat)
    requires HasKey(p, k)
    ensures i < |p| && p[i].key == k
    ensures forall m | 0 <= m < i :: p[m].key != k
  {
    if p[0].key == k then 0
    else
      var j :| 0 <= j < |p| && p[j].key == k;
      assert p[1..][j - 1].key == k;
      var i := FirstIndex(p[1..], k);
      assert forall m | 0 < m < i + 1 :: p[m] == p[1..][m - 1];
      i + 1
  }

  predicate HasKey(p: Params, k: string) {
    exists i | 0 <= i < |p| :: p[i].key == k
  }

  /** Every property named `k` set to `undefined`, in place. */
  function Blank(p: Params, k: string): (q: Params)
    ensures |q| == |p|
    ensures forall i | 0 <= i < |p| :: q[i].key == p[i].key
    ensures forall i | 0 <= i < |p| :: q[i] == if p[i].key == k then Entry(k, None) else p[i]
  {
    if p == [] then []
    else [if p[0].key == k then Entry(k, None) else p[0]] + Blank(p[1..], k)
  }

  /**
   * `params[k] = undefined`: an existing property keeps its place, a new one is
   * added at the end, as JavaScript assignment does.
   */
  function Consume(p: Params, k: string): Params {
    if HasKey(p, k) then Blank(p, k) else p + [Entry(k, None)]
  }

  /** The properties whose value is defined, as key/value pairs in order. */
  function Defined(p: Params): seq<(string, string)> {
    if p == [] then []
    else if p[0].value.Some? then [(p[0].key, p[0].value.value)] + Defined(p[1..])
    else Defined(p[1..])
  }

  /** `pairs` without those whose key is `k`. */
  function Without(pairs: seq<(string, string)>, k: string): (r: seq<(string, string)>)
    ensures forall i | 0 <= i < |r| :: r[i].0 != k
  {
    if pairs == [] then []
    else if pairs[0].0 == k then Without(pairs[1..], k)
    else [pairs[0]] + Without(pairs[1..], k)
  }

  /** `params[k]` is the value of the first property named `k`, and undefined when there is none. */
  lemma {:induction false} GetFirst(p: Params, k: string)
    ensures HasKey(p, k) ==> Get(p, k) == p[FirstIndex(p, k)].value
    ensures !HasKey(p, k) ==> Get(p, k) == None
  {
    if p != [] && p[0].key != k && HasKey(p, k) {
      var j :| 0 <= j < |p| && p[j].key == k;
      assert p[1..][j - 1].key == k;
      GetFirst(p[1..], k);
    }
  }

  lemma {:induction false} GetAppend(p: Params, q: Params, k: string)
    ensures Get(p + q, k) == if HasKey(p, k) then Get(p, k) else Get(q, k)
  {
    if p == [] {
      assert p + q == q;
    } else {
      assert (p + q)[1..] == p[1..] + q;
      if p[0].key != k {
        GetAppend(p[1..], q, k);
        assert HasKey(p, k) <==> HasKey(p[1..], k) by {
          if HasKey(p, k) {
            var i :| 0 <= i < |p| && p[i].key == k;
            assert p[1..][i - 1].key == k;
          }
          if HasKey(p[1..], k) {
            var i :| 0 <= i < |p[1..]| && p[1..][i].key == k;
            assert p[i + 1].key == k;
          }
        }
      }
    }
  }

  lemma {:induction false} GetBlank(p: Params, k: string, j: string)
    ensures Get(Blank(p, k), j) == if j == k then None else Get(p, j)
  {
    if p != [] {
      assert Blank(p, k)[1..] == Blank(p[1..], k);
      GetBlank(p[1..], k, j);
    }
  }

  /** After `params[k] = undefined`, `k` reads as undefined and every other name as before. */
  lemma GetConsume(p: Params, k: string, j: string)
    ensures Get(Consume(p, k), j) == if j == k then None else Get(p, j)
  {
    if HasKey(p, k) {
      GetBlank(p, k, j);
    } else {
      GetAppend(p, [Entry(k, None)], j);
      if HasKey(p, j) {
        assert j != k;
      } else {
        assert Get([Entry(k, None)], j) == None;
      }
    }
  }

  lemma {:induction false} DefinedAppend(p: Params, q: Params)
    ensures Defined(p + q) == Defined(p) + Defined(q)
  {
    if p == [] {
      assert p + q == q;
    } else {
      assert (p + q)[1..] == p[1..] + q;
      DefinedAppend(p[1..], q);
    }
  }

  lemma {:induction false} DefinedBlank(p: Params, k: string)
    ensures Defined(Blank(p, k)) == Without(Defined(p), k)
  {
    if p != [] {
      assert Blank(p, k)[1..] == Blank(p[1..], k);
      DefinedBlank(p[1..], k);
    }
  }

  /** Consuming a name removes exactly its pairs from the defined properties, keeping the order of the rest. */
  lemma DefinedConsume(p: Params, k: string)
    ensures Defined(Consume(p, k)) == Without(Defined(p), k)
  {
    if HasKey(p, k) {
      DefinedBlank(p, k);
    } else {
      DefinedAppend(p, [Entry(k, None)]);
      DefinedNoKey(p, k);
    }
  }

  lemma {:induction false} DefinedNoKey(p: Params, k: string)
    requires !HasKey(p, k)
    ensures Without(Defined(p), k) == Defined(p)
  {
    if p != [] {
      assert forall i | 0 <= i < |p[1..]| :: p[1..][i] == p[i + 1];
      DefinedNoKey(p[1..], k);
    }
  }

  /** The errors the expanders raise at a closing brace. */
  datatype ExpandError =
    | Missing(param: string)
    | Rejected(value: Option<string>, param: string, constraint: string)

  /** Options forwarded to the query serialiser; `settings` stands for every option but the prefix flag. */
  datatype QueryFormat = QueryFormat(addQueryPrefix: bool, settings: map<string, string>)

  /**
   * Capabilities of the host platform that the layer calls: `encodeURI`,
   * `encodeURIComponent` (percent-encoding in the style of section 2.1 of
   * RFC 3986) and `qs.stringify`.
   */
  datatype Host = Host(
    encodeURI: string -> string,
    encodeURIComponent: string -> string,
    stringify: (Params, QueryFormat) -> string)

  /** The unreserved characters of section 2.3 of RFC 3986. */
  predicate IsUnreserved(c: char) {
    ('a' <= c <= 'z') || ('A' <= c <= 'Z') || ('0' <= c <= '9') || c == '-' || c == '.' || c == '_' || c == '~'
  }

  /** An encoder that, as section 2.3 of RFC 3986 requires, leaves unreserved text as it is. */
  ghost predicate KeepsUnreserved(encode: string -> string) {
    forall s: string {:trigger encode(s)} :: (forall i | 0 <= i < |s| :: IsUnreserved(s[i])) ==> encode(s) == s
  }
}
