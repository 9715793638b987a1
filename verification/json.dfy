/** The decoded JSON data the pipeline passes around, and the handful of Python
    operations the source applies to it: dict lookup and item assignment,
    subscripting, iteration, and `str()` for f-string interpolation. */
module Json {
  import opened Results
  import opened Strings

  /** A value as `json.loads` returns it. Objects keep their keys in document
      order, as Python dicts do. */
  datatype Value =
    | Null
    | Bool(b: bool)
    | Int(i: int)
    | Str(s: string)
    | Arr(items: seq<Value>)
    | Obj(fields: seq<(string, Value)>)

  /** The Python exceptions the modelled code can raise on such values. */
  datatype PyError =
    | KeyError(key: string)
    | TypeError(detail: string)
    | AttributeError(detail: string)
    | IndexError(detail: string)

  /** `str(e)` for a raised exception. */
  function ErrorText(e: PyError): string {
    match e
    case KeyError(k) => QuoteRepr(k)
    case TypeError(d) => d
    case AttributeError(d) => d
    case IndexError(d) => d
  }

  /** `type(v).__name__`. */
  function TypeName(v: Value): string {
    match v
    case Null => "NoneType"
    case Bool(_) => "bool"
    case Int(_) => "int"
    case Str(_) => "str"
    case Arr(_) => "list"
    case Obj(_) => "dict"
  }

  /** `d.get(key)`: the value stored under `key`, if any. */
  function Get(fields: seq<(string, Value)>, key: string): Option<Value>
    decreases |fields|
  {
    if |fields| == 0 then None
    else if fields[0].0 == key then Some(fields[0].1)
    else Get(fields[1..], key)
  }

  /** `d[key] = v`: an existing key keeps its place and takes the new value;
      a new key is appended after all others. */
  function Put(fields: seq<(string, Value)>, key: string, v: Value): (r: seq<(string, Value)>)
    ensures Get(fields, key).Some? ==> |r| == |fields|
    ensures Get(fields, key).None? ==> |r| == |fields| + 1 && r[|fields|] == (key, v)
    ensures forall i :: 0 <= i < |fields| ==> r[i].0 == fields[i].0
    ensures Get(r, key) == Some(v)
    decreases |fields|
  {
    if |fields| == 0 then [(key, v)]
    else if fields[0].0 == key then [(key, v)] + fields[1..]
    else [fields[0]] + Put(fields[1..], key, v)
  }

  /** A key is found exactly when some entry carries it. */
  lemma {:induction false} GetFindsKey(fields: seq<(string, Value)>, key: string)
    ensures Get(fields, key).Some? <==> exists i :: 0 <= i < |fields| && fields[i].0 == key
    decreases |fields|
  {
    if |fields| > 0 {
      GetFindsKey(fields[1..], key);
      if exists i :: 0 <= i < |fields| && fields[i].0 == key {
        var i :| 0 <= i < |fields| && fields[i].0 == key;
        if i > 0 {
          assert fields[1..][i - 1].0 == key;
        }
      }
      if Get(fields[1..], key).Some? {
        var i :| 0 <= i < |fields| - 1 && fields[1..][i].0 == key;
        assert fields[i + 1].0 == key;
      }
    }
  }

  /** Iterating a dict visits exactly its keys. */
  lemma IterateVisitsKeys(fields: seq<(string, Value)>, key: string)
    ensures Str(key) in Iterate(Obj(fields)).value <==> Get(fields, key).Some?
  {
    GetFindsKey(fields, key);
    var keys := Iterate(Obj(fields)).value;
    if Str(key) in keys {
      var i :| 0 <= i < |keys| && keys[i] == Str(key);
      assert fields[i].0 == key;
    }
  }

  /** After `d[key] = v`, `d[key]` gives `v`. */
  lemma SubscriptAfterPut(fields: seq<(string, Value)>, key: string, v: Value)
    ensures Subscript(Obj(Put(fields, key, v)), key) == Success(v)
  {
  }

  /** Assigning one key leaves every other key's value as it was. */
  lemma {:induction false} PutKeepsOthers(fields: seq<(string, Value)>, key: string, v: Value, other: string)
    requires other != key
    ensures Get(Put(fields, key, v), other) == Get(fields, other)
    decreases |fields|
  {
    if |fields| > 0 && fields[0].0 != key {
      PutKeepsOthers(fields[1..], key, v, other);
    }
  }

  /** `v[key]` for a string key: a dict's value under `key`; a dict without the
      key raises `KeyError(key)`, anything else a `TypeError`. */
  function Subscript(v: Value, key: string): (r: Result<Value, PyError>)
    ensures r.Success? <==> v.Obj? && Get(v.fields, key).Some?
    ensures r.Success? ==> Get(v.fields, key) == Some(r.value)
    ensures v.Obj? && Get(v.fields, key).None? ==> r == Failure(KeyError(key))
    ensures !v.Obj? ==> r.Failure? && r.error.TypeError?
  {
    match v
    case Obj(fields) =>
      (match Get(fields, key)
       case Some(x) => Success(x)
       case None => Failure(KeyError(key)))
    case Arr(_) => Failure(TypeError("list indices must be integers or slices, not str"))
    case Str(_) => Failure(TypeError("string indices must be integers, not 'str'"))
    case _ => Failure(TypeError("'" + TypeName(v) + "' object is not subscriptable"))
  }

  /** The elements a `for` loop over `v` visits: a list's items, a dict's keys,
      a string's characters (as one-character strings); anything else raises a
      `TypeError`. */
  function Iterate(v: Value): (r: Result<seq<Value>, PyError>)
    ensures r.Success? <==> v.Arr? || v.Obj? || v.Str?
    ensures r.Failure? ==> r.error.TypeError?
    ensures v.Arr? ==> r == Success(v.items)
    ensures v.Obj? ==> |r.value| == |v.fields| && forall i :: 0 <= i < |v.fields| ==> r.value[i] == Str(v.fields[i].0)
    ensures v.Str? ==> |r.value| == |v.s| && forall i :: 0 <= i < |v.s| ==> r.value[i] == Str([v.s[i]])
  {
    match v
    case Arr(items) => Success(items)
    case Obj(fields) => Success(seq(|fields|, i requires 0 <= i < |fields| => Str(fields[i].0)))
    case Str(s) => Success(seq(|s|, i requires 0 <= i < |s| => Str([s[i]])))
    case _ => Failure(TypeError("'" + TypeName(v) + "' object is not iterable"))
  }

  /** How `repr` writes one character of a string quoted with `q`. */
  function EscapeChar(c: char, q: char): string {
    if c == '\\' then "\\\\"
    else if c == q then ['\\', q]
    else if c == '\n' then "\\n"
    else if c == '\r' then "\\r"
    else if c == '\t' then "\\t"
    else [c]
  }

  /** The characters of `s` as `repr` writes them between quotes `q`. */
  function EscapeAll(s: string, q: char): string
    decreases |s|
  {
    if |s| == 0 then "" else EscapeChar(s[0], q) + EscapeAll(s[1..], q)
  }

  /** `repr(s)`: single quotes unless `s` holds a single quote and no double quote. */
  function QuoteRepr(s: string): string {
    var q := if '\'' in s && '"' !in s then '"' else '\'';
    [q] + EscapeAll(s, q) + [q]
  }

  /** A character `repr` writes as itself inside either kind of quote. */
  predicate IsPlain(c: char) {
    c != '\\' && c != '\'' && c != '"' && c != '\n' && c != '\r' && c != '\t'
  }

  lemma {:induction false} EscapePlain(s: string, q: char)
    requires forall i :: 0 <= i < |s| ==> IsPlain(s[i])
    requires q == '\'' || q == '"'
    ensures EscapeAll(s, q) == s
    decreases |s|
  {
    if |s| > 0 {
      EscapePlain(s[1..], q);
      assert s == [s[0]] + s[1..];
    }
  }

  /** The repr of a string free of quotes, backslashes and line breaks is the
      string in single quotes; this is how a `KeyError` names a plain key. */
  lemma QuoteReprPlain(s: string)
    requires forall i :: 0 <= i < |s| ==> IsPlain(s[i])
    ensures QuoteRepr(s) == "'" + s + "'"
  {
    assert '\'' !in s by {
      assert forall i :: 0 <= i < |s| ==> s[i] != '\'';
    }
    EscapePlain(s, '\'');
  }

  /** `str()` of a `KeyError` for a plain key is the key in single quotes. */
  lemma KeyErrorText(key: string)
    requires forall i :: 0 <= i < |key| ==> IsPlain(key[i])
    ensures ErrorText(KeyError(key)) == "'" + key + "'"
  {
    QuoteReprPlain(key);
  }

  /** The number of entries of a dict, zero for anything else. */
  function Width(v: Value): nat {
    if v.Obj? then |v.fields| else 0
  }

  /** `repr(v)`: never empty; a list is bracketed, a dict braced, and a string
      quoted with the same quote at both ends. */
  function Repr(v: Value): (r: string)
    ensures |r| > 0
    ensures v.Arr? ==> r[0] == '[' && r[|r| - 1] == ']'
    ensures v.Obj? ==> r[0] == '{' && r[|r| - 1] == '}'
    ensures v.Str? ==> |r| >= 2 && r[0] == r[|r| - 1] && (r[0] == '\'' || r[0] == '"')
    decreases v, Width(v) + 1
  {
    match v
    case Null => "None"
    case Bool(b) => if b then "True" else "False"
    case Int(i) => IntToString(i)
    case Str(s) => QuoteRepr(s)
    case Arr(items) => "[" + ReprItems(items) + "]"
    case Obj(fields) => "{" + ReprFields(v, 0) + "}"
  }

  /** The list elements' reprs separated by ", ". */
  function ReprItems(items: seq<Value>): string
    decreases items
  {
    if |items| == 0 then ""
    else if |items| == 1 then Repr(items[0])
    else Repr(items[0]) + ", " + ReprItems(items[1..])
  }

  /** The entries of dict `v` from the `i`-th on, as `'key': repr(value)`,
      separated by ", ". */
  function ReprFields(v: Value, i: nat): string
    requires v.Obj? && i <= |v.fields|
    decreases v, |v.fields| - i
  {
    if i == |v.fields| then ""
    else
      var entry := QuoteRepr(v.fields[i].0) + ": " + Repr(v.fields[i].1);
      if i + 1 == |v.fields| then entry else entry + ", " + ReprFields(v, i + 1)
  }

  /** `str(v)`, which is what `f"{v}"` inserts: a string as it is, anything else
      as its repr, which is never empty. */
  function Show(v: Value): (r: string)
    ensures v.Str? ==> r == v.s
    ensures !v.Str? ==> r == Repr(v) && |r| > 0
  {
    match v
    case Str(s) => s
    case _ => Repr(v)
  }
}
