/** The command line of the pipeline (import/pipeline_rvvi.py): `--key=value` options collected
    into keyword arguments, which then make the `Config` of the run. */
module Pipeline {
  import opened Wrappers
  import opened Strings
  import opened Values

  /** The settings of a run: five str fields. */
  datatype Config = Config(dbUsername: string, dbPassword: string, dbServer: string,
                           dbDatabase: string, dbSchema: string)

  /** The fields of `Config`, in the order the class declares them. */
  const ConfigFields: seq<string> := ["db_username", "db_password", "db_server", "db_database", "db_schema"]

  /** The keyword arguments `parse_arguments` collects. */
  type Kwargs = map<string, string>

  /** Only arguments starting with "--" are read. */
  predicate IsOption(arg: string) {
    StartsWith(arg, "--")
  }

  /** `key, value = text.split("=", 1)`: the text before the first "=" and everything after
      it. Without a "=" the split has a single part and the unpacking raises `ValueError`. */
  function SplitKeyValue(text: string): (r: Result<(string, string), Error>)
    ensures r.Failure? <==> '=' !in text
    ensures r.Failure? ==> r.error == ValueError
    ensures r.Success? ==> text == r.value.0 + "=" + r.value.1 && '=' !in r.value.0
  {
    match IndexOf(text, '=')
    case None => Failure(ValueError)
    case Some(i) =>
      assert text == text[..i] + "=" + text[i + 1..];
      assert forall j :: 0 <= j < i ==> text[..i][j] == text[j];
      Success((text[..i], text[i + 1..]))
  }

  /** `key.replace("-", "_")`. */
  function KeywordOf(key: string): (r: string)
    ensures |r| == |key| && '-' !in r
  {
    ReplaceChar(key, '-', '_')
  }

  /** The loop of `parse_arguments` over the arguments still to read, from the keyword
      arguments collected so far. */
  function Collect(argv: seq<string>, kwargs: Kwargs): Result<Kwargs, Error>
    decreases |argv|
  {
    if argv == [] then Success(kwargs)
    else if !IsOption(argv[0]) then Collect(argv[1..], kwargs)
    else
      var kv :- SplitKeyValue(argv[0][2..]);
      Collect(argv[1..], kwargs[KeywordOf(kv.0) := kv.1])
  }

  /** `Config(**kwargs)`: every field must be given, as a str; other keywords are ignored.
      The error names the first missing field. */
  function MakeConfig(kwargs: Kwargs): (r: Result<Config, Error>)
    ensures r.Success? <==> forall f :: f in ConfigFields ==> f in kwargs
    ensures r.Success? ==> r.value == Config(kwargs["db_username"], kwargs["db_password"], kwargs["db_server"],
                                             kwargs["db_database"], kwargs["db_schema"])
    ensures r.Failure? ==> exists f :: f in ConfigFields && f !in kwargs && r.error == ValidationError(f)
  {
    if "db_username" !in kwargs then Failure(ValidationError("db_username"))
    else if "db_password" !in kwargs then Failure(ValidationError("db_password"))
    else if "db_server" !in kwargs then Failure(ValidationError("db_server"))
    else if "db_database" !in kwargs then Failure(ValidationError("db_database"))
    else if "db_schema" !in kwargs then Failure(ValidationError("db_schema"))
    else Success(Config(kwargs["db_username"], kwargs["db_password"], kwargs["db_server"],
                        kwargs["db_database"], kwargs["db_schema"]))
  }

  /** What `parse_arguments(argv)` returns or raises. */
  function ParseSpec(argv: seq<string>): Result<Config, Error> {
    var kwargs :- Collect(argv, map[]);
    MakeConfig(kwargs)
  }

  /** `parse_arguments`: the loop fills `kwargs` in place, one argument at a time. */
  method ParseArguments(argv: seq<string>) returns (r: Result<Config, Error>)
    ensures r == ParseSpec(argv)
  {
    var kwargs: Kwargs := map[];
    var i := 0;
    while i < |argv|
      invariant 0 <= i <= |argv|
      invariant Collect(argv, map[]) == Collect(argv[i..], kwargs)
    {
      assert argv[i..][1..] == argv[i + 1..];
      var arg := argv[i];
      if StartsWith(arg, "--") {
        var kv := SplitKeyValue(arg[2..]);
        if kv.Failure? {
          return Failure(kv.error);
        }
        kwargs := kwargs[KeywordOf(kv.value.0) := kv.value.1];
      }
      i := i + 1;
    }
    assert argv[i..] == [];
    r := MakeConfig(kwargs);
  }

  /** Reading two runs of arguments is reading the first and, unless it raised, the second
      from where the first left off. */
  lemma {:induction false} CollectAppend(a: seq<string>, b: seq<string>, kwargs: Kwargs)
    ensures Collect(a + b, kwargs) ==
      match Collect(a, kwargs)
      case Failure(e) => Failure(e)
      case Success(k) => Collect(b, k)
    decreases |a|
  {
    if a == [] {
      assert a + b == b;
    } else {
      assert (a + b)[0] == a[0];
      assert (a + b)[1..] == a[1..] + b;
      if !IsOption(a[0]) {
        CollectAppend(a[1..], b, kwargs);
      } else if SplitKeyValue(a[0][2..]).Success? {
        var kv := SplitKeyValue(a[0][2..]).value;
        CollectAppend(a[1..], b, kwargs[KeywordOf(kv.0) := kv.1]);
      }
    }
  }

  /** An argument that does not start with "--" is ignored, wherever it stands. */
  lemma {:induction false} NonOptionIgnored(a: seq<string>, arg: string, b: seq<string>)
    requires !IsOption(arg)
    ensures ParseSpec(a + [arg] + b) == ParseSpec(a + b)
  {
    CollectAppend(a, [arg] + b, map[]);
    CollectAppend(a, b, map[]);
    assert a + [arg] + b == a + ([arg] + b);
    if Collect(a, map[]).Success? {
      assert ([arg] + b)[1..] == b;
    }
  }

  /** `--key=value`, read after `argv`, sets the keyword `key` with every "-" replaced by "_"
      to `value`, which is all of the text after the first "=" (it may hold "=" itself), and
      overwrites what an earlier option set for that keyword. */
  lemma {:induction false} OptionSets(argv: seq<string>, key: string, value: string, kwargs: Kwargs)
    requires '=' !in key
    ensures Collect(argv + ["--" + key + "=" + value], kwargs) ==
      match Collect(argv, kwargs)
      case Failure(e) => Failure(e)
      case Success(k) => Success(k[KeywordOf(key) := value])
  {
    var arg := "--" + key + "=" + value;
    CollectAppend(argv, [arg], kwargs);
    assert arg[2..] == key + "=" + value;
    SplitAtFirst(key, value);
    if Collect(argv, kwargs).Success? {
      var k := Collect(argv, kwargs).value;
      assert [arg][1..] == [];
      assert Collect([arg], k) == Collect([], k[KeywordOf(key) := value]);
    }
  }

  /** Splitting `key + "=" + value` at its first "=" gives back `key` and `value`. */
  lemma {:induction false} SplitAtFirst(key: string, value: string)
    requires '=' !in key
    ensures SplitKeyValue(key + "=" + value) == Success((key, value))
  {
    var text := key + "=" + value;
    assert forall j :: 0 <= j < |key| ==> text[j] == key[j];
    assert text[|key|] == '=';
    assert IndexOf(text, '=') == Some(|key|);
    assert text[..|key|] == key;
    assert text[|key| + 1..] == value;
  }

  /** An option without "=" raises `ValueError` once it is reached, whatever follows it. */
  lemma {:induction false} OptionWithoutValueRaises(a: seq<string>, arg: string, b: seq<string>)
    requires IsOption(arg) && '=' !in arg
    requires Collect(a, map[]).Success?
    ensures ParseSpec(a + [arg] + b) == Failure(ValueError)
  {
    assert a + [arg] + b == a + ([arg] + b);
    CollectAppend(a, [arg] + b, map[]);
    assert '=' !in arg[2..] by {
      forall j | 0 <= j < |arg[2..]| ensures arg[2..][j] != '=' {
        assert arg[2..][j] == arg[j + 2];
      }
    }
  }

  /** A run is configured exactly when all five fields were given, each from its last
      occurrence. */
  lemma {:induction false} ParseSpecConfigures(argv: seq<string>)
    requires Collect(argv, map[]).Success?
    ensures ParseSpec(argv).Success? <==> forall f :: f in ConfigFields ==> f in Collect(argv, map[]).value
  {
  }

  /** "-" in an option name becomes "_" in the keyword. */
  lemma {:induction false} KeywordOfDashed(a: string, b: string)
    requires '-' !in a && '-' !in b
    ensures KeywordOf(a + "-" + b) == a + "_" + b
  {
    var s := a + "-" + b;
    var r := KeywordOf(s);
    forall i | 0 <= i < |r| ensures r[i] == (a + "_" + b)[i] {
      if i < |a| {
        assert s[i] == a[i];
      } else if i > |a| {
        assert s[i] == b[i - |a| - 1];
      }
    }
  }

  /** The argument `--key=value`. */
  function Opt(key: string, value: string): (r: string)
    ensures IsOption(r)
  {
    "--" + key + "=" + value
  }

  /** The arguments `--key=value` of a run of (key, value) pairs. */
  function Opts(pairs: seq<(string, string)>): (r: seq<string>)
    ensures |r| == |pairs| && forall i :: 0 <= i < |pairs| ==> r[i] == Opt(pairs[i].0, pairs[i].1)
  {
    seq(|pairs|, i requires 0 <= i < |pairs| => Opt(pairs[i].0, pairs[i].1))
  }

  /** The keyword arguments after setting each pair in turn. */
  function Updates(kwargs: Kwargs, pairs: seq<(string, string)>): Kwargs
    decreases |pairs|
  {
    if pairs == [] then kwargs
    else Updates(kwargs[KeywordOf(pairs[0].0) := pairs[0].1], pairs[1..])
  }

  /** A run of options whose names hold no "=" is read left to right, each setting its
      keyword, so that the last option for a keyword wins. */
  lemma {:induction false} CollectOptions(pairs: seq<(string, string)>, kwargs: Kwargs)
    requires forall i :: 0 <= i < |pairs| ==> '=' !in pairs[i].0
    ensures Collect(Opts(pairs), kwargs) == Success(Updates(kwargs, pairs))
    decreases |pairs|
  {
    if pairs != [] {
      var arg := Opts(pairs)[0];
      assert arg[2..] == pairs[0].0 + "=" + pairs[0].1;
      SplitAtFirst(pairs[0].0, pairs[0].1);
      assert Opts(pairs)[1..] == Opts(pairs[1..]);
      CollectOptions(pairs[1..], kwargs[KeywordOf(pairs[0].0) := pairs[0].1]);
    }
  }

  /** Run on well-formed options only, `parse_arguments` makes the `Config` of the keyword
      arguments they set in turn. */
  lemma {:induction false} ParseOptions(pairs: seq<(string, string)>)
    requires forall i :: 0 <= i < |pairs| ==> '=' !in pairs[i].0
    ensures ParseSpec(Opts(pairs)) == MakeConfig(Updates(map[], pairs))
  {
    CollectOptions(pairs, map[]);
  }

  /** The option names of the five fields, and the keywords they become. */
  lemma KeywordsOfFields()
    ensures KeywordOf("db-server") == "db_server" && KeywordOf("db-username") == "db_username"
    ensures KeywordOf("db-password") == "db_password" && KeywordOf("db-database") == "db_database"
    ensures KeywordOf("db-schema") == "db_schema"
  {
    KeywordOfDashed("db", "server");
    KeywordOfDashed("db", "username");
    KeywordOfDashed("db", "password");
    KeywordOfDashed("db", "database");
    KeywordOfDashed("db", "schema");
  }
}
