/** The Python values a session state is made of, together with the four
    built-ins the session helpers in utils.py lean on: `dict.get`, item
    assignment `d[k] = v`, `list(x)` and `str(x)`. */
module PyValue {
  import opened Wrappers

  /** A JSON-like Python value. A `dict` is an association list in insertion
      order, which is how Python 3.7+ dictionaries behave; lookups use the
      first binding of a key, and updates keep keys unique (see `Set`). */
  datatype Value =
    | Str(s: string)
    | Int(i: int)
    | Bool(b: bool)
    | Null
    | List(items: seq<Value>)
    | Dict(fields: seq<(string, Value)>)

  /** The bindings of a Python `dict[str, Any]`, in insertion order. */
  type Fields = seq<(string, Value)>

  /** `k in d` for a dict. */
  predicate HasKey(d: Fields, k: string)
  {
    exists i :: 0 <= i < |d| && d[i].0 == k
  }

  /** Position `i` holds the first binding of `k`. */
  predicate FirstBinding(d: Fields, k: string, i: int)
  {
    0 <= i < |d| && d[i].0 == k && forall j :: 0 <= j < i ==> d[j].0 != k
  }

  /** `d[k]` when `k in d`, as an option. */
  function Get(d: Fields, k: string): (r: Option<Value>)
    ensures r.Some? <==> HasKey(d, k)
  {
    if |d| == 0 then None
    else if d[0].0 == k then Some(d[0].1)
    else
      HasKeyTail(d, k);
      Get(d[1..], k)
  }

  /** The value found is that of the key's first binding. */
  lemma {:induction false} GetFirstBinding(d: Fields, k: string)
    requires HasKey(d, k)
    ensures exists i :: FirstBinding(d, k, i) && d[i].1 == Get(d, k).value
  {
    if d[0].0 == k {
      assert FirstBinding(d, k, 0);
    } else {
      HasKeyTail(d, k);
      GetFirstBinding(d[1..], k);
      var i :| FirstBinding(d[1..], k, i) && d[1..][i].1 == Get(d[1..], k).value;
      assert FirstBinding(d, k, i + 1);
    }
  }

  /** A key is bound in a non-empty dict exactly when it heads it or is bound in the rest. */
  lemma HasKeyTail(d: Fields, k: string)
    requires |d| > 0
    ensures HasKey(d, k) <==> d[0].0 == k || HasKey(d[1..], k)
  {
    if HasKey(d, k) && d[0].0 != k {
      var i :| 0 <= i < |d| && d[i].0 == k;
      assert d[1..][i - 1].0 == k;
    }
    if HasKey(d[1..], k) {
      var i :| 0 <= i < |d[1..]| && d[1..][i].0 == k;
      assert d[i + 1].0 == k;
    }
  }

  /** `d.get(k, default)`. */
  function GetOr(d: Fields, k: string, default: Value): (r: Value)
    ensures HasKey(d, k) ==> Some(r) == Get(d, k)
    ensures !HasKey(d, k) ==> r == default
  {
    match Get(d, k)
    case Some(v) => v
    case None => default
  }

  /** `d[k] = v`: rebinds an existing key in place, or appends a new key at
      the end, as Python dictionaries do. */
  function Set(d: Fields, k: string, v: Value): (r: Fields)
    ensures Get(r, k) == Some(v)
    ensures forall k' :: k' != k ==> Get(r, k') == Get(d, k')
    ensures HasKey(d, k) ==> |r| == |d| && forall i :: 0 <= i < |d| ==> r[i].0 == d[i].0
    ensures !HasKey(d, k) ==> r == d + [(k, v)]
  {
    if |d| == 0 then [(k, v)]
    else if d[0].0 == k then [(k, v)] + d[1..]
    else
      var t := Set(d[1..], k, v);
      var r := [d[0]] + t;
      HasKeyTail(d, k);
      assert r[0] == d[0] && r[1..] == t;
      assert !HasKey(d, k) ==> r == d + [(k, v)] by {
        if !HasKey(d, k) {
          assert r == [d[0]] + (d[1..] + [(k, v)]);
        }
      }
      r
  }

  /** Writing back the value a key already holds leaves the dict as it was. */
  lemma {:induction false} SetExisting(d: Fields, k: string, v: Value)
    requires Get(d, k) == Some(v)
    ensures Set(d, k, v) == d
  {
    if d[0].0 != k {
      SetExisting(d[1..], k, v);
    }
  }

  /** Python's `list(x)`: a list is copied, a string yields its one-character
      strings, a dict yields its keys; any other value is not iterable and
      `list` raises `TypeError`, modelled as `None`. */
  function Iterate(v: Value): (r: Option<seq<Value>>)
    ensures r.Some? <==> (v.List? || v.Str? || v.Dict?)
    ensures v.List? ==> r == Some(v.items)
    ensures v.Str? ==>
              && r.Some? && |r.value| == |v.s|
              && (forall x :: x in r.value ==> x.Str? && |x.s| == 1)
              && forall c :: Str([c]) in r.value <==> c in v.s
    ensures v.Dict? ==>
              && r.Some? && |r.value| == |v.fields|
              && forall k :: Str(k) in r.value <==> HasKey(v.fields, k)
  {
    match v
    case List(items) => Some(items)
    case Str(s) =>
      var chars := seq(|s|, i requires 0 <= i < |s| => Str([s[i]]));
      assert forall c :: Str([c]) in chars ==> c in s by {
        forall c | Str([c]) in chars ensures c in s {
          var i :| 0 <= i < |chars| && chars[i] == Str([c]);
          assert [s[i]] == [c];
        }
      }
      assert forall c :: c in s ==> Str([c]) in chars by {
        forall c | c in s ensures Str([c]) in chars {
          var i :| 0 <= i < |s| && s[i] == c;
          assert chars[i] == Str([c]);
        }
      }
      Some(chars)
    case Dict(fields) =>
      var keys := seq(|fields|, i requires 0 <= i < |fields| => Str(fields[i].0));
      assert forall k :: Str(k) in keys <==> HasKey(fields, k) by {
        forall k ensures Str(k) in keys <==> HasKey(fields, k) {
          if HasKey(fields, k) {
            var i :| 0 <= i < |fields| && fields[i].0 == k;
            assert keys[i] == Str(k);
          }
        }
      }
      Some(keys)
    case _ => None
  }

  /** Python's `str(x)`, which is also what an f-string substitutes for `{x}`. */
  function ToStr(v: Value): string
    decreases v, 1, 0
  {
    match v
    case Str(s) => s
    case Int(i) => IntToDecimal(i)
    case Bool(b) => if b then "True" else "False"
    case Null => "None"
    case List(_) => "[" + ItemReprs(v, 0) + "]"
    case Dict(_) => "{" + FieldReprs(v, 0) + "}"
  }

  /** Python's `repr(x)`: strings are quoted, everything else prints as `str`. */
  function Repr(v: Value): string
    decreases v, 2, 0
  {
    if v.Str? then Quote(v.s) else ToStr(v)
  }

  /** The comma-separated reprs of a list's items from index `i` on. */
  function ItemReprs(v: Value, i: nat): string
    requires v.List? && i <= |v.items|
    decreases v, 0, |v.items| - i
  {
    if i == |v.items| then ""
    else (if i == 0 then "" else ", ") + Repr(v.items[i]) + ItemReprs(v, i + 1)
  }

  /** The comma-separated `'key': repr` pairs of a dict from index `i` on. */
  function FieldReprs(v: Value, i: nat): string
    requires v.Dict? && i <= |v.fields|
    decreases v, 0, |v.fields| - i
  {
    if i == |v.fields| then ""
    else
      assert v.fields[i] in v.fields;
      (if i == 0 then "" else ", ") + Quote(v.fields[i].0) + ": " + Repr(v.fields[i].1)
      + FieldReprs(v, i + 1)
  }

  /** A string literal as Python's `repr` writes it: single quotes unless the
      text holds a single quote and no double quote. */
  function Quote(s: string): string
  {
    var q := if '\'' in s && '"' !in s then '"' else '\'';
    [q] + Escape(s, q) + [q]
  }

  function Escape(s: string, q: char): string
  {
    if |s| == 0 then "" else EscapeChar(s[0], q) + Escape(s[1..], q)
  }

  function EscapeChar(c: char, q: char): string
  {
    if c == '\\' then "\\\\"
    else if c == q then ['\\', q]
    else if c == '\n' then "\\n"
    else if c == '\r' then "\\r"
    else if c == '\t' then "\\t"
    else [c]
  }

  /** `str(i)` for an integer. */
  function IntToDecimal(i: int): string
  {
    if i < 0 then "-" + NatToDecimal(-i) else NatToDecimal(i)
  }

  function NatToDecimal(n: nat): string
  {
    if n < 10 then [Digit(n)] else NatToDecimal(n / 10) + [Digit(n % 10)]
  }

  function Digit(d: nat): char
    requires d < 10
  {
    "0123456789"[d]
  }
}
