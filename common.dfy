/** Small value types and string helpers shared by the modules of the project. */
module Common {

  datatype Option<T> = None | Some(value: T)

  /** The outcome of an operation that may raise: its value, or the exception it raises. */
  datatype Result<T, E> = Ok(value: T) | Err(error: E)

  /** The Python exceptions the modelled code can raise. */
  datatype PyError =
    | ZeroDivisionError   // a ratio over an empty list
    | TypeError           // a call with a missing argument, or an operation on None
    | AttributeError      // a string method called on None
    | KeyError            // a missing key in the parsed script
    | IndexError          // a list read past its end
    | FileExistsError     // os.makedirs on a path that exists
    | FileNotFoundError   // open() for writing in a directory that does not exist
    | ValueError          // json.loads on text that is not JSON
    | RecursionError      // a chain of retries deeper than the interpreter allows
    | EndOfInput          // input() after the console answers ran out
    | ProviderError       // a failure inside a collaborator this model does not see

  /**
   * A parsed JSON value, as `json.loads` returns it (numbers are kept as integers). An object
   * keeps its keys in insertion order, the order in which iterating over a dict yields them.
   */
  datatype Json =
    | JNull
    | JBool(b: bool)
    | JNumber(n: int)
    | JString(s: string)
    | JArray(items: seq<Json>)
    | JObject(keys: seq<string>, fields: map<string, Json>)

  /**
   * Iterating over a parsed value where strings are expected (`sep.join(v)`, `for x in v`): a list
   * gives its items, which must all be strings; a string gives its characters; an object gives
   * its keys. Anything else is not iterable (None).
   */
  function StringItems(v: Json): (r: Option<seq<string>>)
    ensures v.JString? ==> r.Some? && |r.value| == |v.s| && forall k :: 0 <= k < |v.s| ==> r.value[k] == [v.s[k]]
    ensures v.JArray? ==> (r.Some? <==> forall k :: 0 <= k < |v.items| ==> v.items[k].JString?)
    ensures v.JArray? && r.Some? ==> |r.value| == |v.items| && forall k :: 0 <= k < |v.items| ==> v.items[k] == JString(r.value[k])
    ensures v.JObject? ==> r == Some(v.keys)
    ensures v.JNull? || v.JBool? || v.JNumber? ==> r.None?
  {
    match v
    case JString(s) => Some(seq(|s|, k requires 0 <= k < |s| => [s[k]]))
    case JArray(items) =>
      if forall k :: 0 <= k < |items| ==> items[k].JString? then
        Some(seq(|items|, k requires 0 <= k < |items| => items[k].s))
      else None
    case JObject(keys, _) => Some(keys)
    case _ => None
  }

  /** `value[key]` on a parsed JSON value: a missing key raises `KeyError`, a value that is not an object `TypeError`. */
  function Lookup(value: Json, key: string): (r: Result<Json, PyError>)
    ensures r.Ok? <==> value.JObject? && key in value.fields
    ensures r.Ok? ==> r.value == value.fields[key]
    ensures r.Err? ==> r.error == (if value.JObject? then KeyError else TypeError)
  {
    match value
    case JObject(_, fields) => if key in fields then Ok(fields[key]) else Err(KeyError)
    case _ => Err(TypeError)
  }

  /** The decimal digit for `d`. */
  function DigitChar(d: nat): (c: char)
    requires d < 10
    ensures '0' <= c <= '9' && c as int - '0' as int == d
  {
    "0123456789"[d]
  }

  /** Python's `str(n)` for a non-negative integer: its decimal spelling without leading zeros. */
  function NatToString(n: nat): (s: string)
    ensures 1 <= |s|
    ensures forall k :: 0 <= k < |s| ==> '0' <= s[k] <= '9'
    ensures n < 10 <==> |s| == 1
    decreases n
  {
    if n < 10 then [DigitChar(n)] else NatToString(n / 10) + [DigitChar(n % 10)]
  }

  /** Reads a string of decimal digits back as a number. */
  function ParseNat(s: string): nat
    decreases |s|
  {
    if s == [] then 0
    else
      var d := s[|s| - 1] as int - '0' as int;
      ParseNat(s[..|s| - 1]) * 10 + (if 0 <= d then d else 0)
  }

  /** `str` is invertible on the naturals, so different numbers are spelled differently. */
  lemma {:induction false} ParseNatToString(n: nat)
    ensures ParseNat(NatToString(n)) == n
    decreases n
  {
    var s := NatToString(n);
    if n < 10 {
      assert s[..|s| - 1] == [];
    } else {
      ParseNatToString(n / 10);
      assert s[..|s| - 1] == NatToString(n / 10);
    }
  }

  lemma NatToStringInjective(a: nat, b: nat)
    requires NatToString(a) == NatToString(b)
    ensures a == b
  {
    ParseNatToString(a);
    ParseNatToString(b);
  }

  /** Python's `sep.join(parts)`. */
  function Join(parts: seq<string>, sep: string): (s: string)
    decreases |parts|
  {
    if parts == [] then ""
    else if |parts| == 1 then parts[0]
    else parts[0] + sep + Join(parts[1..], sep)
  }

  /**
   * Python's `s.split(sep)` for a non-empty separator: scanning from the left, every occurrence
   * of `sep` that does not overlap an earlier one ends a piece.
   */
  function Split(s: string, sep: string): (parts: seq<string>)
    requires sep != []
    ensures |parts| >= 1
    decreases |s|
  {
    if |sep| <= |s| && s[..|sep|] == sep then [""] + Split(s[|sep|..], sep)
    else if s == [] then [""]
    else
      var rest := Split(s[1..], sep);
      [[s[0]] + rest[0]] + rest[1..]
  }

  /** Splitting a string with no separator character in it gives that string alone. */
  lemma {:induction false} SplitNoSep(s: string, sep: char)
    requires sep !in s
    ensures Split(s, [sep]) == [s]
    decreases |s|
  {
    if s != [] {
      assert s[..1] != [sep] by { assert s[..1][0] == s[0]; }
      SplitNoSep(s[1..], sep);
      assert [s[0]] + s[1..] == s;
    }
  }

  /** Splitting `a + [sep] + b` where `a` has no separator puts `a` first. */
  lemma {:induction false} SplitPrefix(a: string, b: string, sep: char)
    requires sep !in a
    ensures Split(a + [sep] + b, [sep]) == [a] + Split(b, [sep])
    decreases |a|
  {
    var s := a + [sep] + b;
    if a == [] {
      assert s == [sep] + b;
      assert s[..1] == [sep] && s[1..] == b;
    } else {
      assert s[..1] != [sep] by { assert s[..1][0] == a[0]; }
      SplitPrefix(a[1..], b, sep);
      assert s[1..] == a[1..] + [sep] + b;
      assert [a[0]] + a[1..] == a;
    }
  }

  /** Joining with a separator character none of the parts contains can be undone by splitting. */
  lemma {:induction false} SplitJoin(parts: seq<string>, sep: char)
    requires |parts| >= 1
    requires forall k :: 0 <= k < |parts| ==> sep !in parts[k]
    ensures Split(Join(parts, [sep]), [sep]) == parts
    decreases |parts|
  {
    if |parts| == 1 {
      SplitNoSep(parts[0], sep);
    } else {
      SplitJoin(parts[1..], sep);
      SplitPrefix(parts[0], Join(parts[1..], [sep]), sep);
      assert [parts[0]] + parts[1..] == parts;
    }
  }

  /** Putting a character in front of the first part puts it in front of the join. */
  lemma JoinFront(c: char, parts: seq<string>, sep: string)
    requires |parts| >= 1
    ensures Join([[c] + parts[0]] + parts[1..], sep) == [c] + Join(parts, sep)
  {
    var front := [[c] + parts[0]] + parts[1..];
    if |parts| > 1 {
      assert front[1..] == parts[1..];
    }
  }

  /** An empty first part puts the separator in front of the join of the rest. */
  lemma JoinEmptyFront(parts: seq<string>, sep: string)
    requires |parts| >= 1
    ensures Join([""] + parts, sep) == sep + Join(parts, sep)
  {
    assert ([""] + parts)[1..] == parts;
  }

  /** Joining the pieces of a split with the same separator gives back the string. */
  lemma {:induction false} JoinSplit(s: string, sep: string)
    requires sep != []
    ensures Join(Split(s, sep), sep) == s
    decreases |s|
  {
    if |sep| <= |s| && s[..|sep|] == sep {
      var rest := s[|sep|..];
      assert Split(s, sep) == [""] + Split(rest, sep);
      JoinSplit(rest, sep);
      JoinEmptyFront(Split(rest, sep), sep);
      assert s == sep + rest;
    } else if s != [] {
      var rest := s[1..];
      assert Split(s, sep) == [[s[0]] + Split(rest, sep)[0]] + Split(rest, sep)[1..];
      JoinSplit(rest, sep);
      JoinFront(s[0], Split(rest, sep), sep);
      assert [s[0]] + rest == s;
    }
  }

  /** Whether `needle` occurs in `s` at position `i`. */
  predicate OccursAt(s: string, needle: string, i: int)
  {
    0 <= i && i + |needle| <= |s| && s[i..i + |needle|] == needle
  }

  /** Whether `needle` occurs anywhere in `s`. */
  predicate Contains(s: string, needle: string)
  {
    exists i :: 0 <= i <= |s| - |needle| && OccursAt(s, needle, i)
  }

  /** The first piece of a split is where the string starts. */
  lemma {:induction false} SplitFirstPiece(s: string, sep: string)
    requires sep != []
    ensures |Split(s, sep)[0]| <= |s| && s[..|Split(s, sep)[0]|] == Split(s, sep)[0]
    decreases |s|
  {
    if !(|sep| <= |s| && s[..|sep|] == sep) && s != [] {
      SplitFirstPiece(s[1..], sep);
    }
  }

  /** No piece of a split contains the separator. */
  lemma {:induction false} SplitPieceAvoids(s: string, sep: string, k: int)
    requires sep != []
    requires 0 <= k < |Split(s, sep)|
    ensures !Contains(Split(s, sep)[k], sep)
    decreases |s|
  {
    var parts := Split(s, sep);
    if |sep| <= |s| && s[..|sep|] == sep {
      if k > 0 {
        SplitPieceAvoids(s[|sep|..], sep, k - 1);
      }
    } else if s != [] {
      var rest := Split(s[1..], sep);
      if k > 0 {
        SplitPieceAvoids(s[1..], sep, k);
        assert parts[k] == rest[k];
      } else {
        SplitPieceAvoids(s[1..], sep, 0);
        SplitFirstPiece(s[1..], sep);
        var p := [s[0]] + rest[0];
        assert parts[0] == p;
        forall i | 0 <= i <= |p| - |sep|
          ensures !OccursAt(p, sep, i)
        {
          if i == 0 {
            assert p == s[..|p|];
            assert p[..|sep|] == s[..|sep|];
          } else {
            assert p[i..i + |sep|] == rest[0][i - 1..i - 1 + |sep|];
            assert !OccursAt(rest[0], sep, i - 1);
          }
        }
      }
    }
  }
}
