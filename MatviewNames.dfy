/** `extract_matview_names`: the names declared by `CREATE MATERIALIZED VIEW`
    statements in a SQL text, found the way Python's `re.findall` finds them for the
    case-insensitive pattern
      CREATE \s+ MATERIALIZED \s+ VIEW ( \s+ IF \s+ NOT \s+ EXISTS )? \s+ (public\.)? "? ([a-zA-Z0-9_]+) "?
    The scan tries each position from left to right; after a match it resumes where
    the match ended. At one position the optional parts are tried present first and
    absent second, as the regular-expression engine backtracks. */
module MatviewNames {
  import opened Wrappers
  import opened Text

  /** The number of whitespace characters from i on (a greedy `\s*`). */
  function SpaceRun(s: string, i: nat): (n: nat)
    requires i <= |s|
    ensures i + n <= |s|
    ensures forall k :: i <= k < i + n ==> IsSpace(s[k])
    ensures i + n == |s| || !IsSpace(s[i + n])
    decreases |s| - i
  {
    if i < |s| && IsSpace(s[i]) then 1 + SpaceRun(s, i + 1) else 0
  }

  /** The number of name characters `[a-zA-Z0-9_]` from i on. */
  function WordRun(s: string, i: nat): (n: nat)
    requires i <= |s|
    ensures i + n <= |s|
    ensures forall k :: i <= k < i + n ==> IsWordChar(s[k])
    ensures i + n == |s| || !IsWordChar(s[i + n])
    decreases |s| - i
  {
    if i < |s| && IsWordChar(s[i]) then 1 + WordRun(s, i + 1) else 0
  }

  /** `\s+` at i: where it ends, if at least one space is there. */
  function Spaces(s: string, i: nat): (r: Option<nat>)
    requires i <= |s|
    ensures r.Some? ==> i < r.value <= |s|
  {
    var n := SpaceRun(s, i);
    if n == 0 then None else Some(i + n)
  }

  /** The lower-case keyword `w` at i, in any case. */
  predicate KeywordAt(s: string, i: nat, w: string) {
    i + |w| <= |s| && Lower(s[i..i + |w|]) == w
  }

  /** A keyword at i: where it ends. */
  function Keyword(s: string, i: nat, w: string): (r: Option<nat>)
    ensures r.Some? ==> r.value == i + |w| <= |s|
  {
    if KeywordAt(s, i, w) then Some(i + |w|) else None
  }

  /** `"?([a-zA-Z0-9_]+)"?` at q: the name and where the match ends. */
  function NameAt(s: string, q: nat): (r: Option<(string, nat)>)
    requires q <= |s|
    ensures r.Some? ==> q < r.value.1 <= |s| && IsName(r.value.0)
  {
    var start := NameStart(s, q);
    var n := WordRun(s, start);
    if n == 0 then None
    else
      Some((s[start..start + n], start + n + CloseQuote(s, start + n)))
  }

  /** The closing `"?`: one character if a quote is there. */
  function CloseQuote(s: string, j: nat): (n: nat)
    ensures n <= 1
  {
    if j < |s| && s[j] == '"' then 1 else 0
  }

  /** `\s+(?:public\.)?"?([a-zA-Z0-9_]+)"?` at p: with the schema if that matches,
      otherwise without it. */
  function AfterView(s: string, p: nat): (r: Option<(string, nat)>)
    requires p <= |s|
    ensures r.Some? ==> p < r.value.1 <= |s| && IsName(r.value.0)
  {
    match Spaces(s, p)
    case None => None
    case Some(q) =>
      var withSchema := SchemaName(s, q);
      if withSchema.Some? then withSchema else NameAt(s, q)
  }

  /** `public\."?([a-zA-Z0-9_]+)"?` at q. */
  function SchemaName(s: string, q: nat): (r: Option<(string, nat)>)
    requires q <= |s|
    ensures r.Some? ==> q < r.value.1 <= |s| && IsName(r.value.0)
  {
    if KeywordAt(s, q, "public.") then NameAt(s, q + 7) else None
  }

  /** `\s+IF\s+NOT\s+EXISTS` at e: where it ends. */
  function IfNotExists(s: string, e: nat): (r: Option<nat>)
    requires e <= |s|
    ensures r.Some? ==> e < r.value <= |s|
  {
    match Spaces(s, e)
    case None => None
    case Some(a) =>
      match Keyword(s, a, "if")
      case None => None
      case Some(b) =>
        match Spaces(s, b)
        case None => None
        case Some(c) =>
          match Keyword(s, c, "not")
          case None => None
          case Some(d) =>
            match Spaces(s, d)
            case None => None
            case Some(f) => Keyword(s, f, "exists")
  }

  /** What follows `VIEW` at e: with `IF NOT EXISTS` if the whole rest matches that
      way, otherwise without it. */
  function ViewTail(s: string, e: nat): (r: Option<(string, nat)>)
    requires e <= |s|
    ensures r.Some? ==> e < r.value.1 <= |s| && IsName(r.value.0)
  {
    var guarded := Guarded(s, e);
    if guarded.Some? then guarded else AfterView(s, e)
  }

  /** The rest of the pattern after a matched `IF NOT EXISTS`. */
  function Guarded(s: string, e: nat): (r: Option<(string, nat)>)
    requires e <= |s|
    ensures r.Some? ==> e < r.value.1 <= |s| && IsName(r.value.0)
  {
    match IfNotExists(s, e) case Some(g) => AfterView(s, g) case None => None
  }

  /** The pattern matched at i: the captured name and where the match ends. */
  function MatchAt(s: string, i: nat): (r: Option<(string, nat)>)
    requires i <= |s|
    ensures r.Some? ==> i < r.value.1 <= |s| && IsName(r.value.0)
  {
    match Keyword(s, i, "create")
    case None => None
    case Some(a) =>
      match Spaces(s, a)
      case None => None
      case Some(b) =>
        match Keyword(s, b, "materialized")
        case None => None
        case Some(c) =>
          match Spaces(s, c)
          case None => None
          case Some(d) =>
            match Keyword(s, d, "view")
            case None => None
            case Some(e) => ViewTail(s, e)
  }

  predicate IsName(name: string) {
    name != [] && forall k :: 0 <= k < |name| ==> IsWordChar(name[k])
  }

  /** A matcher tried at position p of s: the captured name and where the match
      ends, or None. */
  type Matcher = (string, nat) -> Option<(string, nat)>

  /** Every match ends after it starts and within the text, and captures a name. */
  predicate WellBehaved(m: Matcher, s: string) {
    forall p: nat :: p < |s| && m(s, p).Some? ==> p < m(s, p).value.1 <= |s| && IsName(m(s, p).value.0)
  }

  /** The pattern as a matcher. */
  function Pattern(): (m: Matcher)
    ensures forall s: string :: WellBehaved(m, s)
  {
    (s: string, p: nat) => if p <= |s| then MatchAt(s, p) else None
  }

  /** `findall` from position i: the match at i if there is one, then the scan
      resumes where it ended; otherwise the scan moves one character on. */
  function FindAll(m: Matcher, s: string, i: nat): (names: seq<string>)
    requires i <= |s| && WellBehaved(m, s)
    ensures forall k :: 0 <= k < |names| ==> IsName(names[k])
    decreases |s| - i
  {
    if i == |s| then []
    else match m(s, i)
      case Some(r) => [r.0] + FindAll(m, s, r.1)
      case None => FindAll(m, s, i + 1)
  }

  /** Every name found is a non-empty run of `[a-zA-Z0-9_]`. */
  function ExtractMatviewNames(sql: string): (names: seq<string>)
    ensures forall k :: 0 <= k < |names| ==> IsName(names[k])
  {
    FindAll(Pattern(), sql, 0)
  }

  /** Where the match at p ends (p itself when nothing matches there). */
  function EndAt(m: Matcher, s: string, p: nat): nat {
    match m(s, p) case Some(r) => r.1 case None => p
  }

  /** No match of `ps` strictly covers p. */
  predicate Uncovered(m: Matcher, s: string, ps: seq<nat>, p: nat) {
    forall k :: 0 <= k < |ps| ==> !(ps[k] < p < EndAt(m, s, ps[k]))
  }

  /** `ps` are match positions from i on, in order, not overlapping, naming `names`. */
  predicate Matches(m: Matcher, s: string, i: nat, ps: seq<nat>, names: seq<string>) {
    && |ps| == |names|
    && (forall k :: 0 <= k < |ps| ==> i <= ps[k] < |s| && m(s, ps[k]).Some? && m(s, ps[k]).value.0 == names[k])
    && (forall k :: 0 <= k < |ps| - 1 ==> EndAt(m, s, ps[k]) <= ps[k + 1])
  }

  /** Every position from i on where the matcher matches, not covered by a match of
      `ps`, is in `ps`. */
  predicate Leftmost(m: Matcher, s: string, i: nat, ps: seq<nat>) {
    forall p: nat :: i <= p < |s| && m(s, p).Some? && Uncovered(m, s, ps, p) ==> p in ps
  }

  /** The names come in order of appearance from leftmost, non-overlapping matches:
      `ps` are the positions of the matches, increasing, each one starting at or
      after the end of the one before, and every position where the pattern matches
      and that no earlier match covers is among them. */
  lemma {:induction false} FindAllPositions(m: Matcher, s: string, i: nat) returns (ps: seq<nat>)
    requires i <= |s| && WellBehaved(m, s)
    ensures Matches(m, s, i, ps, FindAll(m, s, i))
    ensures Leftmost(m, s, i, ps)
    decreases |s| - i
  {
    if i == |s| {
      ps := [];
    } else {
      match m(s, i)
      case Some(r) =>
        var rest := FindAllPositions(m, s, r.1);
        ps := [i] + rest;
        ConsPositions(m, s, i, rest);
      case None =>
        ps := FindAllPositions(m, s, i + 1);
    }
  }

  lemma ConsPositions(m: Matcher, s: string, i: nat, rest: seq<nat>)
    requires i < |s| && WellBehaved(m, s) && m(s, i).Some?
    requires Matches(m, s, m(s, i).value.1, rest, FindAll(m, s, m(s, i).value.1))
    requires Leftmost(m, s, m(s, i).value.1, rest)
    ensures Matches(m, s, i, [i] + rest, FindAll(m, s, i))
    ensures Leftmost(m, s, i, [i] + rest)
  {
    ConsMatches(m, s, i, rest);
    ConsLeftmost(m, s, i, rest);
  }

  lemma ConsMatches(m: Matcher, s: string, i: nat, rest: seq<nat>)
    requires i < |s| && WellBehaved(m, s) && m(s, i).Some?
    requires Matches(m, s, m(s, i).value.1, rest, FindAll(m, s, m(s, i).value.1))
    ensures Matches(m, s, i, [i] + rest, FindAll(m, s, i))
  {
    var r := m(s, i).value;
    var ps := [i] + rest;
    var names := FindAll(m, s, i);
    assert EndAt(m, s, i) == r.1;
    assert names == [r.0] + FindAll(m, s, r.1);
    forall k | 0 <= k < |ps| ensures i <= ps[k] < |s| && m(s, ps[k]).Some? && m(s, ps[k]).value.0 == names[k] {
      if k > 0 {
        assert ps[k] == rest[k - 1];
      }
    }
    forall k | 0 <= k < |ps| - 1 ensures EndAt(m, s, ps[k]) <= ps[k + 1] {
      if k > 0 {
        assert ps[k] == rest[k - 1] && ps[k + 1] == rest[k];
      }
    }
  }

  lemma ConsLeftmost(m: Matcher, s: string, i: nat, rest: seq<nat>)
    requires i < |s| && WellBehaved(m, s) && m(s, i).Some?
    requires Leftmost(m, s, m(s, i).value.1, rest)
    ensures Leftmost(m, s, i, [i] + rest)
  {
    var r := m(s, i).value;
    var ps := [i] + rest;
    assert EndAt(m, s, i) == r.1;
    forall p: nat | i <= p < |s| && m(s, p).Some? && Uncovered(m, s, ps, p)
      ensures p in ps
    {
      if p != i {
        assert !(ps[0] < p < EndAt(m, s, ps[0]));
        assert Uncovered(m, s, rest, p) by {
          forall k | 0 <= k < |rest| ensures !(rest[k] < p < EndAt(m, s, rest[k])) {
            assert rest[k] == ps[k + 1];
          }
        }
        assert p in rest;
      }
    }
  }

  // ---- what the pattern recognises ----

  function Quote(name: string, quoted: bool): string {
    if quoted then "\"" + name + "\"" else name
  }

  function Guard(ifNotExists: bool): string {
    if ifNotExists then " IF NOT EXISTS" else ""
  }

  /** The name with or without `public.` and quotes. */
  function Named(name: string, schema: bool, quoted: bool): string {
    Schema(schema) + Quote(name, quoted)
  }

  /** What a declaration writes after `VIEW`. */
  function ViewRest(name: string, ifNotExists: bool, schema: bool, quoted: bool): string {
    Guard(ifNotExists) + " " + Named(name, schema, quoted)
  }

  /** A declaration as the SQL files write it, in upper case with single spaces. */
  function Declaration(name: string, ifNotExists: bool, schema: bool, quoted: bool): string {
    "CREATE MATERIALIZED VIEW" + ViewRest(name, ifNotExists, schema, quoted)
  }

  /** `w` at e, followed by whitespace or the end of the text. */
  predicate FollowedAt(s: string, e: nat, w: string) {
    e + |w| <= |s| && s[e..e + |w|] == w && (e + |w| == |s| || IsSpace(s[e + |w|]))
  }

  lemma {:induction false} WordRunExact(s: string, i: nat, n: nat)
    requires i + n <= |s|
    requires forall k :: i <= k < i + n ==> IsWordChar(s[k])
    requires i + n == |s| || !IsWordChar(s[i + n])
    ensures WordRun(s, i) == n
    decreases n
  {
    if n > 0 {
      WordRunExact(s, i + 1, n - 1);
    }
  }

  /** The name, quoted or not and followed by a space or the end, is read whole. */
  lemma NameAtExact(s: string, q: nat, name: string, quoted: bool)
    requires IsName(name)
    requires FollowedAt(s, q, Quote(name, quoted))
    ensures NameAt(s, q).Some? && NameAt(s, q).value.0 == name
  {
    var d := Quote(name, quoted);
    var start := if quoted then q + 1 else q;
    QuoteParts(name, quoted);
    SliceOfWritten(s, q, d, start - q, start - q + |name|);
    assert d[start - q..start - q + |name|] == name;
    SliceOfWritten(s, q, d, 0, 1);
    assert s[q] == s[q..q + 1][0];
    assert NameStart(s, q) == start;
    if quoted {
      SliceOfWritten(s, q, d, |d| - 1, |d|);
      assert s[start + |name|] == s[q + |d| - 1..q + |d|][0];
    }
    WordRunOfName(s, start, name);
    NameRead(s, q, start, name);
  }

  lemma NameRead(s: string, q: nat, start: nat, name: string)
    requires q <= start <= |s| && NameStart(s, q) == start && name != []
    requires WordRun(s, start) == |name| && s[start..start + |name|] == name
    ensures NameAt(s, q).Some? && NameAt(s, q).value.0 == name
  {
  }

  /** A name written at i and not followed by a name character is read whole. */
  lemma WordRunOfName(s: string, i: nat, name: string)
    requires IsName(name) && i + |name| <= |s| && s[i..i + |name|] == name
    requires i + |name| == |s| || !IsWordChar(s[i + |name|])
    ensures WordRun(s, i) == |name|
  {
    forall k | i <= k < i + |name|
      ensures IsWordChar(s[k])
    {
      assert s[k] == s[i..i + |name|][k - i];
    }
    WordRunExact(s, i, |name|);
  }

  /** A quoted name is the name between two quote characters. */
  lemma QuoteParts(name: string, quoted: bool)
    ensures var d := Quote(name, quoted); var o := if quoted then 1 else 0;
      && |d| == |name| + 2 * o && d[o..o + |name|] == name
      && (quoted ==> d[0] == '"' && d[|d| - 1] == '"')
      && (!quoted ==> d == name)
  {
    if quoted {
      var d := Quote(name, quoted);
      assert d[1..1 + |name|] == name;
    }
  }

  /** A space then the body at g, followed by whitespace or the end. */
  predicate SpacedBody(s: string, g: nat, body: string) {
    g < |s| && s[g] == ' ' && FollowedAt(s, g + 1, body)
  }

  /** The keyword test fails when some character differs from the keyword's. */
  lemma NotKeyword(s: string, i: nat, w: string, j: nat)
    requires j < |w| && i + |w| <= |s| && LowerChar(s[i + j]) != w[j]
    ensures !KeywordAt(s, i, w)
  {
    assert Lower(s[i..i + |w|])[j] == LowerChar(s[i + j]);
  }

  function Schema(schema: bool): string {
    if schema then "public." else ""
  }

  lemma SchemaLower()
    ensures Lower("public.") == "public."
  {
  }

  /** `public.` and then the name: the schema is taken. */
  lemma WithSchema(s: string, q: nat, name: string, quoted: bool)
    requires IsName(name)
    requires FollowedAt(s, q, "public." + Quote(name, quoted))
    ensures KeywordAt(s, q, "public.")
    ensures NameAt(s, q + 7).Some? && NameAt(s, q + 7).value.0 == name
  {
    var body := "public." + Quote(name, quoted);
    var d := Quote(name, quoted);
    SliceOfWritten(s, q, body, 0, 7);
    assert body[0..7] == "public.";
    SchemaLower();
    SliceOfWritten(s, q, body, 7, |body|);
    assert body[7..|body|] == d;
    assert FollowedAt(s, q + 7, d);
    NameAtExact(s, q + 7, name, quoted);
  }

  /** The name alone: `public.` cannot match there, since the name is followed by a
      space or the end. */
  lemma WithoutSchema(s: string, q: nat, name: string, quoted: bool)
    requires IsName(name)
    requires FollowedAt(s, q, Quote(name, quoted))
    ensures !KeywordAt(s, q, "public.")
    ensures NameAt(s, q).Some? && NameAt(s, q).value.0 == name
  {
    var d := Quote(name, quoted);
    assert s[q] == d[0];
    if q + 7 <= |s| {
      if quoted {
        NotKeyword(s, q, "public.", 0);
      } else if |name| >= 7 {
        assert s[q + 6] == d[6];
        NotKeyword(s, q, "public.", 6);
      } else {
        NotKeyword(s, q, "public.", |name|);
      }
    }
    NameAtExact(s, q, name, quoted);
  }

  /** The space before a name is a `\s+` of length one. */
  lemma SpaceBeforeName(s: string, p: nat, name: string, schema: bool, quoted: bool)
    requires IsName(name)
    requires SpacedBody(s, p, Named(name, schema, quoted))
    ensures Spaces(s, p) == Some(p + 1)
  {
    var body := Named(name, schema, quoted);
    QuoteParts(name, quoted);
    assert !IsSpace(body[0]) by {
      if schema {
        assert body[0] == "public."[0];
      } else if !quoted {
        assert body[0] == name[0];
      }
    }
    SliceOfWritten(s, p + 1, body, 0, 1);
    assert s[p + 1] == s[p + 1..p + 2][0];
    OneSpace(s, p);
  }

  /** A space, then the name with or without `public.` and quotes, followed by a
      space or the end: the name is captured. */
  lemma AfterViewExact(s: string, p: nat, name: string, schema: bool, quoted: bool)
    requires IsName(name)
    requires SpacedBody(s, p, Named(name, schema, quoted))
    ensures AfterView(s, p).Some? && AfterView(s, p).value.0 == name
  {
    var q := p + 1;
    SpaceBeforeName(s, p, name, schema, quoted);
    if schema {
      assert Named(name, schema, quoted) == "public." + Quote(name, quoted);
      WithSchema(s, q, name, quoted);
      assert SchemaName(s, q) == NameAt(s, q + 7);
    } else {
      assert Named(name, schema, quoted) == Quote(name, quoted);
      WithoutSchema(s, q, name, quoted);
      assert SchemaName(s, q) == None;
    }
  }

  lemma GuardLower()
    ensures Lower("IF") == "if" && Lower("NOT") == "not" && Lower("EXISTS") == "exists"
  {
  }

  /** A slice of `w` where `w` is written at e. */
  lemma SliceOfWritten(s: string, e: nat, w: string, i: nat, j: nat)
    requires e + |w| <= |s| && s[e..e + |w|] == w && i <= j <= |w|
    ensures s[e + i..e + j] == w[i..j]
  {
    forall k | i <= k < j
      ensures s[e + i..e + j][k - i] == w[k]
    {
      assert s[e..e + |w|][k] == w[k];
    }
  }

  /** ` IF NOT EXISTS` at e, piece by piece. */
  lemma GuardPieces(s: string, e: nat)
    requires e + 14 <= |s| && s[e..e + 14] == " IF NOT EXISTS"
    ensures s[e] == ' ' && s[e + 1..e + 3] == "IF" && s[e + 3] == ' ' && s[e + 4..e + 7] == "NOT"
    ensures s[e + 7] == ' ' && s[e + 8..e + 14] == "EXISTS"
  {
    var g := " IF NOT EXISTS";
    SliceOfWritten(s, e, g, 1, 3);
    SliceOfWritten(s, e, g, 4, 7);
    SliceOfWritten(s, e, g, 8, 14);
  }

  /** ` IF NOT EXISTS` at e is matched through its end. */
  lemma IfNotExistsExact(s: string, e: nat)
    requires e + 14 <= |s| && s[e..e + 14] == " IF NOT EXISTS"
    ensures IfNotExists(s, e) == Some(e + 14)
  {
    GuardPieces(s, e);
    GuardLower();
    assert s[e + 1] == "IF"[0] && s[e + 4] == "NOT"[0] && s[e + 8] == "EXISTS"[0];
    OneSpace(s, e);
    KeywordHere(s, e + 1, "IF", "if");
    OneSpace(s, e + 3);
    KeywordHere(s, e + 4, "NOT", "not");
    OneSpace(s, e + 7);
    KeywordHere(s, e + 8, "EXISTS", "exists");
  }

  /** After the space that follows `VIEW`, the text cannot go on as `if` and
      whitespace, unless the name itself is `if`. */
  lemma IfBlocked(s: string, a: nat, name: string, schema: bool, quoted: bool)
    requires IsName(name)
    requires schema || quoted || Lower(name) != "if"
    requires FollowedAt(s, a, Named(name, schema, quoted))
    ensures !KeywordAt(s, a, "if") || SpaceRun(s, a + 2) == 0
  {
    var body := Named(name, schema, quoted);
    QuoteParts(name, quoted);
    SliceOfWritten(s, a, body, 0, 1);
    assert s[a] == s[a..a + 1][0];
    if a + 2 <= |s| {
      if schema {
        assert body[0] == "public."[0];
        NotKeyword(s, a, "if", 0);
      } else if quoted {
        NotKeyword(s, a, "if", 0);
      } else {
        assert body == name;
        IfBlockedBare(s, a, name);
      }
    }
  }

  /** The bare-name case of the lemma above. */
  lemma IfBlockedBare(s: string, a: nat, name: string)
    requires IsName(name) && Lower(name) != "if"
    requires FollowedAt(s, a, name) && a + 2 <= |s|
    ensures !KeywordAt(s, a, "if") || SpaceRun(s, a + 2) == 0
  {
    SliceOfWritten(s, a, name, 0, 1);
    assert s[a] == s[a..a + 1][0];
    if |name| == 1 {
      assert IsSpace(s[a + 1]);
      NotKeyword(s, a, "if", 1);
    } else if LowerChar(name[0]) != 'i' {
      NotKeyword(s, a, "if", 0);
    } else {
      SliceOfWritten(s, a, name, 1, 2);
      assert s[a + 1] == s[a + 1..a + 2][0];
      if LowerChar(name[1]) != 'f' {
        NotKeyword(s, a, "if", 1);
      } else {
        assert |name| == 2 ==> Lower(name) == "if";
        SliceOfWritten(s, a, name, 2, 3);
        assert s[a + 2] == s[a + 2..a + 3][0] == name[2];
        assert !IsSpace(s[a + 2]);
      }
    }
  }

  /** Without `IF NOT EXISTS` the optional group fails, unless the name itself is
      `if` and could start one. */
  lemma NoIfNotExists(s: string, e: nat, name: string, schema: bool, quoted: bool)
    requires IsName(name)
    requires schema || quoted || Lower(name) != "if"
    requires SpacedBody(s, e, Named(name, schema, quoted))
    ensures IfNotExists(s, e) == None
  {
    SpaceBeforeName(s, e, name, schema, quoted);
    IfBlocked(s, e + 1, name, schema, quoted);
  }

  /** What follows `VIEW`: the optional ` IF NOT EXISTS`, a space and the name; the
      name is captured either way. */
  lemma ViewTailExact(s: string, e: nat, name: string, ifNotExists: bool, schema: bool, quoted: bool)
    requires IsName(name)
    requires ifNotExists || schema || quoted || Lower(name) != "if"
    requires FollowedAt(s, e, ViewRest(name, ifNotExists, schema, quoted))
    ensures ViewTail(s, e).Some? && ViewTail(s, e).value.0 == name
  {
    var body := Named(name, schema, quoted);
    var g := if ifNotExists then e + 14 else e;
    var rest := ViewRest(name, ifNotExists, schema, quoted);
    SplitRest(s, e, g, ifNotExists, body);
    if ifNotExists {
      assert s[e..e + 14] == rest[..14];
      IfNotExistsExact(s, e);
      AfterViewExact(s, g, name, schema, quoted);
      GuardTaken(s, e);
    } else {
      NoIfNotExists(s, e, name, schema, quoted);
      AfterViewExact(s, e, name, schema, quoted);
    }
  }

  lemma GuardTaken(s: string, e: nat)
    requires e + 14 <= |s| && IfNotExists(s, e) == Some(e + 14) && AfterView(s, e + 14).Some?
    ensures ViewTail(s, e) == AfterView(s, e + 14)
  {
  }

  lemma SplitRest(s: string, e: nat, g: nat, ifNotExists: bool, body: string)
    requires g == if ifNotExists then e + 14 else e
    requires FollowedAt(s, e, Guard(ifNotExists) + " " + body)
    ensures SpacedBody(s, g, body)
  {
    var rest := Guard(ifNotExists) + " " + body;
    assert s[g..g + 1 + |body|] == rest[g - e..];
    assert s[g] == s[g..g + 1 + |body|][0];
    assert s[g + 1..g + 1 + |body|] == s[g..g + 1 + |body|][1..];
  }

  /** The pieces of `a + b + c`, where `c` is empty or starts with whitespace. */
  lemma SplitFollowed(a: string, b: string, c: string)
    requires c == [] || IsSpace(c[0])
    ensures var s := a + b + c;
      && s[..|a|] == a && s[|a|..|a| + |b|] == b
      && (|a| + |b| == |s| || IsSpace(s[|a| + |b|]))
  {
    var s := a + b + c;
    if c != [] {
      assert s[|a| + |b|] == c[0];
    }
  }

  /** A declaration followed by whitespace or the end of the text is matched at its
      first character and yields its name, with or without `IF NOT EXISTS`, the
      `public.` schema and quotes (a bare view called `if` aside). */
  lemma DeclarationMatches(name: string, ifNotExists: bool, schema: bool, quoted: bool, tail: string)
    requires IsName(name)
    requires ifNotExists || schema || quoted || Lower(name) != "if"
    requires tail == [] || IsSpace(tail[0])
    ensures var s := Declaration(name, ifNotExists, schema, quoted) + tail;
      MatchAt(s, 0).Some? && MatchAt(s, 0).value.0 == name
  {
    var s := Declaration(name, ifNotExists, schema, quoted) + tail;
    SplitFollowed("CREATE MATERIALIZED VIEW", ViewRest(name, ifNotExists, schema, quoted), tail);
    HeadThenRest(s, name, ifNotExists, schema, quoted);
  }

  /** The keywords at the start, then the rest of a declaration: the name is captured. */
  lemma HeadThenRest(s: string, name: string, ifNotExists: bool, schema: bool, quoted: bool)
    requires IsName(name)
    requires ifNotExists || schema || quoted || Lower(name) != "if"
    requires |s| >= 24 && s[..24] == "CREATE MATERIALIZED VIEW"
    requires FollowedAt(s, 24, ViewRest(name, ifNotExists, schema, quoted))
    ensures MatchAt(s, 0).Some? && MatchAt(s, 0).value.0 == name
  {
    ViewTailExact(s, 24, name, ifNotExists, schema, quoted);
    CreateHeadOf(s);
    KeywordsExact(s);
  }

  /** A keyword written as `lit` at i, where `lit` lowers to `w`, is matched. */
  lemma KeywordHere(s: string, i: nat, lit: string, w: string)
    requires i + |lit| <= |s| && s[i..i + |lit|] == lit && Lower(lit) == w
    ensures Keyword(s, i, w) == Some(i + |w|)
  {
  }

  /** A single space before a non-space is a `\s+` of length one. */
  lemma OneSpace(s: string, i: nat)
    requires i + 1 < |s| && s[i] == ' ' && !IsSpace(s[i + 1])
    ensures Spaces(s, i) == Some(i + 1)
  {
    assert SpaceRun(s, i + 1) == 0;
  }

  lemma CreateLower()
    ensures Lower("CREATE") == "create" && Lower("MATERIALIZED") == "materialized" && Lower("VIEW") == "view"
  {
  }

  /** The three leading keywords, written in upper case with single spaces. */
  predicate CreateHead(s: string) {
    |s| >= 24 && s[0..6] == "CREATE" && s[6] == ' ' && s[7..19] == "MATERIALIZED"
    && s[19] == ' ' && s[20..24] == "VIEW"
  }

  lemma CreateHeadOf(s: string)
    requires |s| >= 24 && s[..24] == "CREATE MATERIALIZED VIEW"
    ensures CreateHead(s)
  {
    var k := "CREATE MATERIALIZED VIEW";
    assert s[0..6] == k[0..6];
    assert s[7..19] == k[7..19];
    assert s[20..24] == k[20..24];
  }

  /** `CREATE MATERIALIZED VIEW` at the start is matched through `VIEW`. */
  lemma KeywordsExact(s: string)
    requires CreateHead(s)
    ensures MatchAt(s, 0) == ViewTail(s, 24)
  {
    CreateLower();
    KeywordHere(s, 0, "CREATE", "create");
    assert s[7] == "MATERIALIZED"[0];
    OneSpace(s, 6);
    KeywordHere(s, 7, "MATERIALIZED", "materialized");
    assert s[20] == "VIEW"[0];
    OneSpace(s, 19);
    KeywordHere(s, 20, "VIEW", "view");
  }

  /** A text that starts with a declaration yields its name first. */
  lemma DeclarationFirst(name: string, ifNotExists: bool, schema: bool, quoted: bool, tail: string)
    requires IsName(name)
    requires ifNotExists || schema || quoted || Lower(name) != "if"
    requires tail == [] || IsSpace(tail[0])
    ensures var names := ExtractMatviewNames(Declaration(name, ifNotExists, schema, quoted) + tail);
      |names| >= 1 && names[0] == name
  {
    DeclarationMatches(name, ifNotExists, schema, quoted, tail);
  }

  // ---- case-insensitivity ----

  function LowerMatch(r: Option<(string, nat)>): Option<(string, nat)> {
    match r case None => None case Some(m) => Some((Lower(m.0), m.1))
  }

  lemma {:induction false} SpaceRunLower(s: string, i: nat)
    requires i <= |s|
    ensures SpaceRun(Lower(s), i) == SpaceRun(s, i)
    decreases |s| - i
  {
    if i < |s| {
      SpaceRunLower(s, i + 1);
    }
  }

  lemma {:induction false} WordRunLower(s: string, i: nat)
    requires i <= |s|
    ensures WordRun(Lower(s), i) == WordRun(s, i)
    decreases |s| - i
  {
    if i < |s| {
      WordRunLower(s, i + 1);
    }
  }

  lemma SpacesLower(s: string, i: nat)
    requires i <= |s|
    ensures Spaces(Lower(s), i) == Spaces(s, i)
  {
    SpaceRunLower(s, i);
  }

  lemma KeywordLower(s: string, i: nat, w: string)
    ensures Keyword(Lower(s), i, w) == Keyword(s, i, w)
  {
    if i + |w| <= |s| {
      assert Lower(s)[i..i + |w|] == Lower(s[i..i + |w|]);
      LowerIdempotent(s[i..i + |w|]);
    }
  }

  /** Lower-casing keeps the quote character and makes no other character one. */
  lemma QuoteLower(c: char)
    ensures LowerChar(c) == '"' <==> c == '"'
  {
  }

  /** Where the name starts: after an opening quote, if there is one. */
  function NameStart(s: string, q: nat): (start: nat)
    requires q <= |s|
    ensures q <= start <= |s|
  {
    if q < |s| && s[q] == '"' then q + 1 else q
  }

  lemma NameStartLower(s: string, q: nat)
    requires q <= |s|
    ensures NameStart(Lower(s), q) == NameStart(s, q)
  {
    if q < |s| {
      QuoteLower(s[q]);
    }
  }

  lemma NameAtLower(s: string, q: nat)
    requires q <= |s|
    ensures NameAt(Lower(s), q) == LowerMatch(NameAt(s, q))
  {
    var ls := Lower(s);
    NameStartLower(s, q);
    var start := NameStart(s, q);
    WordRunLower(s, start);
    var n := WordRun(s, start);
    if n > 0 {
      if start + n < |s| {
        QuoteLower(s[start + n]);
      }
      var e := start + n + CloseQuote(s, start + n);
      assert CloseQuote(ls, start + n) == CloseQuote(s, start + n);
      NameAtParts(s, q, start, n, e);
      NameAtParts(ls, q, start, n, e);
      LowerSome(s, start, n, e);
    }
  }

  lemma LowerSome(s: string, start: nat, n: nat, e: nat)
    requires start + n <= |s|
    ensures LowerMatch(Some((s[start..start + n], e))) == Some((Lower(s)[start..start + n], e))
  {
    LowerSlice(s, start, start + n);
  }

  /** NameAt once where the name starts and how long it runs are known. */
  lemma NameAtParts(s: string, q: nat, start: nat, n: nat, e: nat)
    requires q <= |s| && start == NameStart(s, q) && n == WordRun(s, start) && n > 0
    requires e == start + n + CloseQuote(s, start + n)
    ensures NameAt(s, q) == Some((s[start..start + n], e))
  {
  }

  lemma SchemaNameLower(s: string, q: nat)
    requires q <= |s|
    ensures SchemaName(Lower(s), q) == LowerMatch(SchemaName(s, q))
  {
    KeywordLower(s, q, "public.");
    if KeywordAt(s, q, "public.") {
      NameAtLower(s, q + 7);
    }
  }

  lemma AfterViewLower(s: string, p: nat)
    requires p <= |s|
    ensures AfterView(Lower(s), p) == LowerMatch(AfterView(s, p))
  {
    SpacesLower(s, p);
    match Spaces(s, p)
    case None =>
    case Some(q) =>
      SchemaNameLower(s, q);
      NameAtLower(s, q);
  }

  lemma IfNotExistsLower(s: string, e: nat)
    requires e <= |s|
    ensures IfNotExists(Lower(s), e) == IfNotExists(s, e)
  {
    SpacesLower(s, e);
    match Spaces(s, e)
    case None =>
    case Some(a) =>
      KeywordLower(s, a, "if");
      match Keyword(s, a, "if")
      case None =>
      case Some(b) =>
        SpacesLower(s, b);
        match Spaces(s, b)
        case None =>
        case Some(c) =>
          KeywordLower(s, c, "not");
          match Keyword(s, c, "not")
          case None =>
          case Some(d) =>
            SpacesLower(s, d);
            match Spaces(s, d)
            case None =>
            case Some(f) => KeywordLower(s, f, "exists");
  }

  lemma GuardedLower(s: string, e: nat)
    requires e <= |s|
    ensures Guarded(Lower(s), e) == LowerMatch(Guarded(s, e))
  {
    IfNotExistsLower(s, e);
    match IfNotExists(s, e)
    case None =>
    case Some(g) => AfterViewLower(s, g);
  }

  lemma ViewTailLower(s: string, e: nat)
    requires e <= |s|
    ensures ViewTail(Lower(s), e) == LowerMatch(ViewTail(s, e))
  {
    GuardedLower(s, e);
    AfterViewLower(s, e);
  }

  lemma MatchAtLower(s: string, i: nat)
    requires i <= |s|
    ensures MatchAt(Lower(s), i) == LowerMatch(MatchAt(s, i))
  {
    KeywordLower(s, i, "create");
    match Keyword(s, i, "create")
    case None =>
    case Some(a) =>
      SpacesLower(s, a);
      match Spaces(s, a)
      case None =>
      case Some(b) =>
        KeywordLower(s, b, "materialized");
        match Keyword(s, b, "materialized")
        case None =>
        case Some(c) =>
          SpacesLower(s, c);
          match Spaces(s, c)
          case None =>
          case Some(d) =>
            KeywordLower(s, d, "view");
            match Keyword(s, d, "view")
            case None =>
            case Some(e) => ViewTailLower(s, e);
  }

  /** A matcher that finds, in the lower-cased text, the lower-cased match. */
  ghost predicate CaseBlind(m: Matcher, s: string) {
    forall p: nat :: p <= |s| ==> m(Lower(s), p) == LowerMatch(m(s, p))
  }

  /** A case-blind matcher finds in the lower-cased text the same names, lower-cased,
      in the same order. */
  lemma {:induction false} FindAllLowerWith(m: Matcher, s: string, i: nat)
    requires i <= |s| && WellBehaved(m, s) && WellBehaved(m, Lower(s)) && CaseBlind(m, s)
    ensures |FindAll(m, Lower(s), i)| == |FindAll(m, s, i)|
    ensures forall k :: 0 <= k < |FindAll(m, s, i)| ==>
      FindAll(m, Lower(s), i)[k] == Lower(FindAll(m, s, i)[k])
    decreases |s| - i
  {
    if i < |s| {
      assert m(Lower(s), i) == LowerMatch(m(s, i));
      match m(s, i)
      case Some(r) =>
        FindAllLowerWith(m, s, r.1);
        var rest, rest' := FindAll(m, s, r.1), FindAll(m, Lower(s), r.1);
        assert FindAll(m, s, i) == [r.0] + rest;
        assert FindAll(m, Lower(s), i) == [Lower(r.0)] + rest';
      case None =>
        FindAllLowerWith(m, s, i + 1);
    }
  }

  /** Matching ignores case: the lower-cased text declares the same views, their
      names lower-cased, in the same order. */
  lemma FindAllLower(s: string, i: nat)
    requires i <= |s|
    ensures |FindAll(Pattern(), Lower(s), i)| == |FindAll(Pattern(), s, i)|
    ensures forall k :: 0 <= k < |FindAll(Pattern(), s, i)| ==>
      FindAll(Pattern(), Lower(s), i)[k] == Lower(FindAll(Pattern(), s, i)[k])
  {
    forall p: nat | p <= |s| ensures Pattern()(Lower(s), p) == LowerMatch(Pattern()(s, p)) {
      MatchAtLower(s, p);
    }
    FindAllLowerWith(Pattern(), s, i);
  }

  /** `re.IGNORECASE`: the lower-cased script declares the same views in the same
      order, only their names lower-cased. */
  lemma ExtractIgnoresCase(sql: string)
    ensures |ExtractMatviewNames(Lower(sql))| == |ExtractMatviewNames(sql)|
    ensures forall k :: 0 <= k < |ExtractMatviewNames(sql)| ==>
      ExtractMatviewNames(Lower(sql))[k] == Lower(ExtractMatviewNames(sql)[k])
  {
    FindAllLower(sql, 0);
  }
}
