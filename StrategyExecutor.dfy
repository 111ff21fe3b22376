/** The placeholder rewriting of `run_strategy_sql` (src/strategy_executor.py):
    `re.findall(r':(\w+)', sql)` collects the parameter names,
    `re.sub(r':\w+', '%s', sql)` turns each into a positional placeholder, and
    the values are looked up in the params dict in that order. The regex scan
    is modelled as a tokenizer that splits the text into literal characters
    and `:name` parameters, matching leftmost and longest as Python's `re` does. */
module StrategyExecutor {

  import opened Wrappers
  import opened Text

  datatype Piece = Lit(c: char) | Param(name: string)

  /** The longest prefix of word characters (`\w+` is greedy). */
  function WordPrefix(s: string): (w: string)
    ensures |w| <= |s| && w == s[..|w|]
    ensures forall i :: 0 <= i < |w| ==> IsWordChar(w[i])
    ensures |w| < |s| ==> !IsWordChar(s[|w|])
    decreases |s|
  {
    if s == [] || !IsWordChar(s[0]) then []
    else [s[0]] + WordPrefix(s[1..])
  }

  /** The regex scan, left to right: a ':' followed by a word character starts
      a parameter; any other character is literal text. */
  function Tokenize(s: string): seq<Piece>
    decreases |s|
  {
    if s == [] then []
    else if s[0] == ':' && |s| > 1 && IsWordChar(s[1]) then
      var n := WordPrefix(s[1..]);
      [Param(n)] + Tokenize(s[1 + |n|..])
    else [Lit(s[0])] + Tokenize(s[1..])
  }

  /** The text a piece stands for. */
  function Render(t: seq<Piece>): string {
    if t == [] then []
    else (match t[0] case Lit(c) => [c] case Param(n) => ":" + n) + Render(t[1..])
  }

  /** The names a scan collects, in order of occurrence, repeats included. */
  function ParamNames(t: seq<Piece>): seq<string> {
    if t == [] then []
    else (match t[0] case Lit(_) => [] case Param(n) => [n]) + ParamNames(t[1..])
  }

  /** The text with every parameter replaced by `%s`. */
  function Rewrite(t: seq<Piece>): string {
    if t == [] then []
    else (match t[0] case Lit(c) => [c] case Param(_) => "%s") + Rewrite(t[1..])
  }

  /** The literal text between parameters: one more run than there are parameters. */
  function Segments(t: seq<Piece>): (r: seq<string>)
    ensures |r| == |ParamNames(t)| + 1
  {
    if t == [] then [[]]
    else
      var rest := Segments(t[1..]);
      match t[0]
      case Lit(c) => [[c] + rest[0]] + rest[1..]
      case Param(_) => [[]] + rest
  }

  /** `segs[0] + sep(0) + segs[1] + ... + segs[k]`, the separators given by `sep`. */
  function Weave(segs: seq<string>, seps: seq<string>): string
    requires |segs| == |seps| + 1
  {
    if seps == [] then segs[0]
    else segs[0] + seps[0] + Weave(segs[1..], seps[1..])
  }

  function Prefixed(names: seq<string>): (r: seq<string>)
    ensures |r| == |names|
  {
    seq(|names|, i requires 0 <= i < |names| => ":" + names[i])
  }

  function Placeholders(k: nat): (r: seq<string>)
    ensures |r| == k
  {
    seq(k, i => "%s")
  }

  /** The scan loses nothing: its pieces spell the original text. */
  lemma {:induction false} TokenizeRoundTrip(s: string)
    ensures Render(Tokenize(s)) == s
    decreases |s|
  {
    if s != [] {
      if s[0] == ':' && |s| > 1 && IsWordChar(s[1]) {
        var n := WordPrefix(s[1..]);
        TokenizeRoundTrip(s[1 + |n|..]);
        assert s == ":" + n + s[1 + |n|..];
      } else {
        TokenizeRoundTrip(s[1..]);
        assert s == [s[0]] + s[1..];
      }
    }
  }

  /** Every collected name is a non-empty run of word characters that is not
      followed by another word character. */
  lemma {:induction false} TokenizeNames(s: string)
    ensures forall k :: 0 <= k < |ParamNames(Tokenize(s))| ==>
              |ParamNames(Tokenize(s))[k]| > 0
              && forall i :: 0 <= i < |ParamNames(Tokenize(s))[k]| ==> IsWordChar(ParamNames(Tokenize(s))[k][i])
    decreases |s|
  {
    if s != [] {
      if s[0] == ':' && |s| > 1 && IsWordChar(s[1]) {
        TokenizeNames(s[1 + |WordPrefix(s[1..])|..]);
      } else {
        TokenizeNames(s[1..]);
      }
    }
  }

  /** A character in front of the first run joins that run. */
  lemma WeaveCons(c: char, segs: seq<string>, seps: seq<string>)
    requires |segs| == |seps| + 1
    ensures Weave([[c] + segs[0]] + segs[1..], seps) == [c] + Weave(segs, seps)
  {
    var segs' := [[c] + segs[0]] + segs[1..];
    assert segs'[1..] == segs[1..];
  }

  /** A separator in front of an empty first run comes first. */
  lemma WeaveSep(sep: string, segs: seq<string>, seps: seq<string>)
    requires |segs| == |seps| + 1
    ensures Weave([[]] + segs, [sep] + seps) == sep + Weave(segs, seps)
  {
    var segs', seps' := [[]] + segs, [sep] + seps;
    assert segs'[0] == [] && seps'[0] == sep;
    assert segs'[1..] == segs && seps'[1..] == seps;
    assert Weave(segs', seps') == segs'[0] + seps'[0] + Weave(segs, seps);
    assert [] + sep == sep;
  }

  /** The rewritten text is the literal runs joined by `%s`, one per collected name. */
  lemma {:induction false} RewriteShape(t: seq<Piece>)
    ensures Rewrite(t) == Weave(Segments(t), Placeholders(|ParamNames(t)|))
  {
    if t != [] {
      RewriteShape(t[1..]);
      var rest := Segments(t[1..]);
      var k := |ParamNames(t[1..])|;
      match t[0]
      case Lit(c) =>
        assert Segments(t) == [[c] + rest[0]] + rest[1..];
        WeaveCons(c, rest, Placeholders(k));
      case Param(n) =>
        assert Segments(t) == [[]] + rest;
        assert Placeholders(k + 1) == ["%s"] + Placeholders(k);
    }
  }

  /** The original text is the same runs joined by `:name`. */
  lemma {:induction false} RenderShape(t: seq<Piece>)
    ensures Render(t) == Weave(Segments(t), Prefixed(ParamNames(t)))
  {
    if t != [] {
      RenderShape(t[1..]);
      if t[0].Lit? {
        RenderLitStep(t);
      } else {
        RenderParamStep(t);
      }
    }
  }

  lemma RenderLitStep(t: seq<Piece>)
    requires t != [] && t[0].Lit?
    requires Render(t[1..]) == Weave(Segments(t[1..]), Prefixed(ParamNames(t[1..])))
    ensures Render(t) == Weave(Segments(t), Prefixed(ParamNames(t)))
  {
    var c := t[0].c;
    var rest := Segments(t[1..]);
    var seps := Prefixed(ParamNames(t[1..]));
    assert ParamNames(t) == ParamNames(t[1..]);
    assert Segments(t) == [[c] + rest[0]] + rest[1..];
    assert Render(t) == [c] + Render(t[1..]);
    WeaveCons(c, rest, seps);
  }

  lemma RenderParamStep(t: seq<Piece>)
    requires t != [] && t[0].Param?
    requires Render(t[1..]) == Weave(Segments(t[1..]), Prefixed(ParamNames(t[1..])))
    ensures Render(t) == Weave(Segments(t), Prefixed(ParamNames(t)))
  {
    var n := t[0].name;
    var names := ParamNames(t[1..]);
    assert ParamNames(t) == [n] + names;
    assert Segments(t) == [[]] + Segments(t[1..]);
    assert Prefixed([n] + names) == [":" + n] + Prefixed(names);
    assert Render(t) == ":" + n + Render(t[1..]);
    WeaveSep(":" + n, Segments(t[1..]), Prefixed(names));
  }

  /** The tail of a `::type` cast is taken for a parameter. */
  lemma CastIsAParameter()
    ensures ParamNames(Tokenize("x::int")) == ["int"]
  {
    assert "x::int"[1..] == "::int" && "::int"[1..] == ":int" && ":int"[1..] == "int";
    assert "int"[1..] == "nt" && "nt"[1..] == "t" && "t"[1..] == "";
    assert WordPrefix("int") == "int";
    assert ":int"[1 + 3..] == "";
    assert Tokenize(":int") == [Param("int")];
    assert Tokenize("x::int") == [Lit('x'), Lit(':'), Param("int")];
  }

  /** So are the minutes of a time literal. */
  lemma TimeLiteralIsAParameter()
    ensures ParamNames(Tokenize("'09:15'")) == ["15"]
  {
    assert WordPrefix("15'") == "15";
    assert Tokenize("'") == [Lit('\'')];
    assert Tokenize("'09:15'") == [Lit('\''), Lit('0'), Lit('9'), Param("15"), Lit('\'')];
  }

  /** A name missing from the params dict (raised as KeyError). */
  datatype KeyError = KeyError(name: string)

  /** `[params[name] for name in param_names]`: the first missing name raises. */
  function LookUp<V>(params: map<string, V>, names: seq<string>): (r: Result<seq<V>, KeyError>)
    ensures r.Ok? <==> forall k :: 0 <= k < |names| ==> names[k] in params
    ensures r.Ok? ==> |r.value| == |names| && forall k :: 0 <= k < |names| ==> r.value[k] == params[names[k]]
    ensures r.Err? ==> exists k :: (0 <= k < |names| && names[k] !in params && r.error == KeyError(names[k])
                                    && forall j :: 0 <= j < k ==> names[j] in params)
  {
    if names == [] then Ok([])
    else if names[0] !in params then Err(KeyError(names[0]))
    else match LookUp(params, names[1..])
      case Err(e) => Err(e)
      case Ok(vs) => Ok([params[names[0]]] + vs)
  }

  /** The statement text and the positional values sent to the database. */
  datatype Prepared<V> = Prepared(sql: string, values: Option<seq<V>>)

  /** The placeholder handling of `run_strategy_sql`. Falsy params (None or an
      empty dict) leave the text alone and pass None. */
  function Prepare<V>(sql: string, params: Option<map<string, V>>): (r: Result<Prepared<V>, KeyError>)
    ensures params.None? || params == Some(map[]) ==> r == Ok(Prepared(sql, None))
  {
    if params.None? || params.value == map[] then Ok(Prepared(sql, None))
    else
      var t := Tokenize(sql);
      match LookUp(params.value, ParamNames(t))
      case Err(e) => Err(e)
      case Ok(vs) => Ok(Prepared(Rewrite(t), Some(vs)))
  }

  /** With non-empty params, the text has exactly as many `%s` holes as there
      are values, and the values follow the names in the original text. */
  lemma PrepareShape<V>(sql: string, params: map<string, V>)
    requires params != map[]
    ensures var t := Tokenize(sql);
      && (Prepare(sql, Some(params)).Ok? <==> forall k :: 0 <= k < |ParamNames(t)| ==> ParamNames(t)[k] in params)
      && (Prepare(sql, Some(params)).Ok? ==>
            var p := Prepare(sql, Some(params)).value;
            && p.values.Some? && |p.values.value| == |ParamNames(t)|
            && p.sql == Weave(Segments(t), Placeholders(|p.values.value|))
            && sql == Weave(Segments(t), Prefixed(ParamNames(t)))
            && forall k :: 0 <= k < |ParamNames(t)| ==> p.values.value[k] == params[ParamNames(t)[k]])
  {
    RewriteShape(Tokenize(sql));
    RenderShape(Tokenize(sql));
    TokenizeRoundTrip(sql);
  }

  /** `pd.DataFrame(rows)`, or an empty frame when the query returned nothing. */
  datatype Frame<R> = EmptyFrame | Frame(rows: seq<R>)

  function ToFrame<R>(rows: seq<R>): (f: Frame<R>)
    ensures f.EmptyFrame? <==> rows == []
    ensures f.Frame? ==> f.rows == rows
  {
    if rows == [] then EmptyFrame else Frame(rows)
  }
}
