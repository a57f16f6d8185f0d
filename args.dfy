/** Command-line `key=value` arguments collected into a JSON object. Number parsing
    belongs to the C library and is injected: `parsesWhole(s)` says whether the
    floating-point parser consumes at least one character of `s` and all of it. */
module ArgsJson {
  import opened Wrappers

  type NumberParser = string -> bool

  /** The JSON value stored for an argument's value text. The numeric conversion is
      not modelled: a number keeps its text and records which conversion it gets. */
  datatype JsonValue =
    | JsonInt(text: string)
    | JsonDouble(text: string)
    | JsonString(text: string)

  /** A value text counts as a number when it is nonempty and parses completely:
      the empty text is refused before the parser is consulted. */
  function IsNumber(s: string, parsesWhole: NumberParser): (b: bool)
    ensures s == [] ==> !b
    ensures s != [] ==> (b <==> parsesWhole(s))
  {
    s != [] && parsesWhole(s)
  }

  /** The position of the first `ch` in `s`, if any. */
  function FirstIndexOf(s: string, ch: char): (r: Option<nat>)
    ensures r.None? <==> ch !in s
    ensures r.Some? ==> r.value < |s| && s[r.value] == ch && ch !in s[..r.value]
  {
    if s == [] then None
    else if s[0] == ch then Some(0)
    else match FirstIndexOf(s[1..], ch)
      case None => None
      case Some(i) => assert s[1..][..i] == s[1..i + 1]; Some(i + 1)
  }

  /** Splits an argument at its first `=`: the key is what precedes it, the value all
      that follows, later `=` included. No `=` means no key. */
  function SplitArg(arg: string): (r: Option<(string, string)>)
    ensures r.None? <==> '=' !in arg
    ensures r.Some? ==> arg == r.value.0 + "=" + r.value.1 && '=' !in r.value.0
  {
    match FirstIndexOf(arg, '=')
    case None => None
    case Some(p) =>
      assert arg == arg[..p] + "=" + arg[p + 1..];
      Some((arg[..p], arg[p + 1..]))
  }

  /** The split is the only one whose key holds no `=`: joining a key without `=` to
      any value and splitting again gives both back. */
  lemma {:induction false} SplitArgJoin(key: string, value: string)
    requires '=' !in key
    ensures SplitArg(key + "=" + value) == Some((key, value))
  {
    var arg := key + "=" + value;
    assert arg[|key|] == '=';
    assert arg[..|key|] == key;
    assert arg[|key| + 1..] == value;
  }

  /** The key an argument contributes, if it has one. */
  function KeyOf(arg: string): Option<string>
  {
    match SplitArg(arg)
    case None => None
    case Some((k, _)) => Some(k)
  }

  /** How a value text is stored: a number with a `.` as a double, any other number
      as an int, everything else as a string. */
  function Classify(value: string, parsesWhole: NumberParser): (j: JsonValue)
    ensures j.text == value
    ensures j.JsonDouble? <==> IsNumber(value, parsesWhole) && '.' in value
    ensures j.JsonInt? <==> IsNumber(value, parsesWhole) && '.' !in value
    ensures j.JsonString? <==> !IsNumber(value, parsesWhole)
  {
    if IsNumber(value, parsesWhole) then
      if '.' in value then JsonDouble(value) else JsonInt(value)
    else JsonString(value)
  }

  /** The object built from `args` (the arguments after the program name) in order,
      each well-formed argument inserting or overwriting its key. */
  function Collect(args: seq<string>, parsesWhole: NumberParser): map<string, JsonValue>
  {
    if args == [] then map[]
    else
      var m := Collect(args[..|args| - 1], parsesWhole);
      match SplitArg(args[|args| - 1])
      case None => m
      case Some((k, v)) => m[k := Classify(v, parsesWhole)]
  }

  /** The object has exactly the keys of the arguments that contain an `=`. */
  lemma {:induction false} CollectKeys(args: seq<string>, parsesWhole: NumberParser, k: string)
    ensures k in Collect(args, parsesWhole) <==> exists i :: 0 <= i < |args| && KeyOf(args[i]) == Some(k)
  {
    if args != [] {
      var init := args[..|args| - 1];
      CollectKeys(init, parsesWhole, k);
      if exists i :: 0 <= i < |args| && KeyOf(args[i]) == Some(k) {
        var i :| 0 <= i < |args| && KeyOf(args[i]) == Some(k);
        if i < |init| {
          assert KeyOf(init[i]) == Some(k);
        }
      }
      if exists i :: 0 <= i < |init| && KeyOf(init[i]) == Some(k) {
        var i :| 0 <= i < |init| && KeyOf(init[i]) == Some(k);
        assert KeyOf(args[i]) == Some(k);
      }
    }
  }

  /** When a key repeats, the value of its last occurrence is the one kept. */
  lemma {:induction false} LastOccurrenceWins(args: seq<string>, parsesWhole: NumberParser, i: nat, k: string, v: string)
    requires i < |args| && SplitArg(args[i]) == Some((k, v))
    requires forall j :: i < j < |args| ==> KeyOf(args[j]) != Some(k)
    ensures k in Collect(args, parsesWhole) && Collect(args, parsesWhole)[k] == Classify(v, parsesWhole)
  {
    var init := args[..|args| - 1];
    if i < |args| - 1 {
      assert init[i] == args[i];
      forall j | i < j < |init| ensures KeyOf(init[j]) != Some(k) {
        assert init[j] == args[j];
      }
      LastOccurrenceWins(init, parsesWhole, i, k, v);
      assert KeyOf(args[|args| - 1]) != Some(k);
    }
  }

  /** An argument without `=` leaves the object as it was. */
  lemma ArgWithoutEqualsIgnored(args: seq<string>, arg: string, parsesWhole: NumberParser)
    requires '=' !in arg
    ensures Collect(args + [arg], parsesWhole) == Collect(args, parsesWhole)
  {
    assert (args + [arg])[..|args|] == args;
  }

  /** Taking one more argument that has an `=` stores its classified value under its key. */
  lemma CollectPrefixStore(args: seq<string>, n: nat, parsesWhole: NumberParser, k: string, v: string)
    requires n < |args| && SplitArg(args[n]) == Some((k, v))
    ensures Collect(args[..n + 1], parsesWhole) == Collect(args[..n], parsesWhole)[k := Classify(v, parsesWhole)]
  {
    assert args[..n + 1][..n] == args[..n];
  }

  /** Taking one more argument without `=` changes nothing. */
  lemma CollectPrefixSkip(args: seq<string>, n: nat, parsesWhole: NumberParser)
    requires n < |args| && '=' !in args[n]
    ensures Collect(args[..n + 1], parsesWhole) == Collect(args[..n], parsesWhole)
  {
    assert args[..n + 1][..n] == args[..n];
  }

  /** Builds the object from the whole argument vector; the first entry, the program
      name, is never looked at. */
  method ArgsToJson(argv: seq<string>, parsesWhole: NumberParser) returns (result: map<string, JsonValue>)
    ensures argv == [] ==> result == map[]
    ensures argv != [] ==> result == Collect(argv[1..], parsesWhole)
  {
    ghost var args := if argv == [] then [] else argv[1..];
    result := map[];
    var i := 1;
    while i < |argv|
      invariant 1 <= i <= |args| + 1
      invariant result == Collect(args[..i - 1], parsesWhole)
    {
      var arg := argv[i];
      assert arg == args[i - 1];
      var pos := FirstIndexOf(arg, '=');
      if pos.Some? {
        var key := arg[..pos.value];
        var value := arg[pos.value + 1..];
        var stored;
        if IsNumber(value, parsesWhole) {
          if FirstIndexOf(value, '.').Some? {
            stored := JsonDouble(value);
          } else {
            stored := JsonInt(value);
          }
        } else {
          stored := JsonString(value);
        }
        assert stored == Classify(value, parsesWhole);
        assert SplitArg(arg) == Some((key, value));
        CollectPrefixStore(args, i - 1, parsesWhole, key, value);
        result := result[key := stored];
      } else {
        CollectPrefixSkip(args, i - 1, parsesWhole);
      }
      i := i + 1;
    }
    assert args[..i - 1] == args;
  }
}
