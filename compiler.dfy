/**
 * The path compiler of server/server.go (`compilePath`). A compiled path is
 * kept as its list of segments rather than as a regular expression:
 * `Render` gives the expression text the Go code builds, and `Matches`
 * gives what that expression accepts under Go's regexp semantics.
 */
module PathCompiler {
  import opened Wrappers
  import opened Text

  datatype Segment =
    | Literal(text: string)   // `/` + the segment, pasted verbatim
    | Param(name: string)     // `/(?P<name>[\w-_.]+)`

  type Pattern = seq<Segment>

  /** RE2's `\w`: ASCII letters, digits and underscore. */
  predicate IsWordChar(c: char)
  {
    ('a' <= c <= 'z') || ('A' <= c <= 'Z') || ('0' <= c <= '9') || c == '_'
  }

  /** A non-empty run of `\w` characters, as `(\w+)` captures. */
  predicate IsWord(s: string)
  {
    |s| > 0 && forall i :: 0 <= i < |s| ==> IsWordChar(s[i])
  }

  /** The character class `[\w-_.]` of a placeholder group. */
  predicate IsParamChar(c: char)
  {
    IsWordChar(c) || c == '-' || c == '_' || c == '.'
  }

  /** `s` matches `\{(\w+)\}` at index `i`, capturing `name`. */
  predicate PlaceholderAt(s: string, i: int, name: string)
  {
    0 <= i && i + |name| + 2 <= |s| && s[i] == '{' && IsWord(name)
    && s[i + 1..i + 1 + |name|] == name && s[i + 1 + |name|] == '}'
  }

  /** The length of the longest run of `\w` characters in `s` from index `i`. */
  function WordRun(s: string, i: nat): (k: nat)
    requires i <= |s|
    ensures i + k <= |s|
    ensures forall j :: i <= j < i + k ==> IsWordChar(s[j])
    ensures i + k < |s| ==> !IsWordChar(s[i + k])
    decreases |s| - i
  {
    if i == |s| || !IsWordChar(s[i]) then 0 else 1 + WordRun(s, i + 1)
  }

  /** A placeholder at `i` captures exactly the word run after the brace. */
  lemma PlaceholderIsWordRun(s: string, i: nat, name: string)
    requires i < |s| && PlaceholderAt(s, i, name)
    ensures WordRun(s, i + 1) == |name|
  {
  }

  /**
   * The leftmost match of `\{(\w+)\}` in `s` at or after `from`: its index
   * and the captured name (the first of `FindAllStringSubmatch`'s matches).
   */
  function FirstPlaceholder(s: string, from: nat): (r: Option<(nat, string)>)
    requires from <= |s|
    ensures r.Some? ==> from <= r.value.0 && PlaceholderAt(s, r.value.0, r.value.1)
    ensures r.Some? ==> forall j, n :: from <= j < r.value.0 ==> !PlaceholderAt(s, j, n)
    ensures r.None? ==> forall j, n :: from <= j ==> !PlaceholderAt(s, j, n)
    decreases |s| - from
  {
    if from == |s| then None
    else
      var k := if s[from] == '{' then WordRun(s, from + 1) else 0;
      if k > 0 && from + 1 + k < |s| && s[from + 1 + k] == '}' then
        Some((from, s[from + 1..from + 1 + k]))
      else
        var r := FirstPlaceholder(s, from + 1);
        assert forall n :: !PlaceholderAt(s, from, n) by {
          forall n | PlaceholderAt(s, from, n) ensures false {
            PlaceholderIsWordRun(s, from, n);
          }
        }
        r
  }

  /** The segment one non-empty piece of a template compiles to. */
  function SegmentOf(part: string): (seg: Segment)
    ensures seg.Literal? <==> forall j, n :: !PlaceholderAt(part, j, n)
    ensures seg.Literal? ==> seg.text == part
    ensures seg.Param? ==> exists j :: PlaceholderAt(part, j, seg.name)
  {
    match FirstPlaceholder(part, 0)
    case None => Literal(part)
    case Some((_, name)) => Param(name)
  }

  /** The segments compiled from `parts`, which are taken in order and skipped when empty. */
  function CompileParts(parts: seq<string>): Pattern
  {
    if parts == [] then []
    else
      var last := parts[|parts| - 1];
      CompileParts(parts[..|parts| - 1]) + (if last == "" then [] else [SegmentOf(last)])
  }

  /** The pattern `compilePath(path)` builds. */
  function Compile(path: string): Pattern
  {
    CompileParts(Split(path, '/'))
  }

  /** `compilePath`: splits the template on `/` and compiles each non-empty piece in turn. */
  method CompilePath(path: string) returns (pattern: Pattern)
    ensures pattern == Compile(path)
  {
    var parts := Split(path, '/');
    pattern := [];
    var i := 0;
    while i < |parts|
      invariant 0 <= i <= |parts|
      invariant pattern == CompileParts(parts[..i])
    {
      var part := parts[i];
      assert parts[..i + 1][..i] == parts[..i];
      if part == "" {
        i := i + 1;
        continue;
      }
      pattern := pattern + [SegmentOf(part)];
      i := i + 1;
    }
    assert parts[..i] == parts;
  }

  /** The text of one segment's sub-expression. */
  function RenderSegment(seg: Segment): string
  {
    match seg
    case Literal(t) => "/" + t
    case Param(n) => "/(?P<" + n + ">[\\w-_.]+)"
  }

  function RenderSegments(p: Pattern): string
  {
    if p == [] then "" else RenderSegments(p[..|p| - 1]) + RenderSegment(p[|p| - 1])
  }

  /** `pattern.String()`: the expression anchored at both ends. */
  function Render(p: Pattern): (r: string)
    ensures HasPrefix(r, "\\A")
    ensures |r| >= 4 && r[|r| - 2..] == "\\z"
  {
    "\\A" + RenderSegments(p) + "\\z"
  }

  // ---------------------------------------------------------------------
  // What a compiled pattern accepts

  /** The length of the longest prefix of `s` made of `[\w-_.]` characters. */
  function ParamRun(s: string): (k: nat)
    ensures k <= |s|
    ensures forall j :: 0 <= j < k ==> IsParamChar(s[j])
    ensures k < |s| ==> !IsParamChar(s[k])
  {
    if s == [] || !IsParamChar(s[0]) then 0 else 1 + ParamRun(s[1..])
  }

  /**
   * `MatchString` of the rendered expression: `\A`, each segment in turn, `\z`.
   * A placeholder group is greedy, and since `/` is not in its class it can only
   * stop where the next segment's `/` or the end of the path begins.
   */
  predicate Matches(p: Pattern, path: string)
    ensures Matches(p, path) ==> (path == "" <==> p == [])
    ensures Matches(p, path) && path != "" ==> path[0] == '/'
    decreases |p|
  {
    if p == [] then path == ""
    else
      |path| >= 1 && path[0] == '/' &&
      var rest := path[1..];
      match p[0]
      case Literal(t) => HasPrefix(rest, t) && Matches(p[1..], rest[|t|..])
      case Param(_) =>
        var k := ParamRun(rest);
        k > 0 && Matches(p[1..], rest[k..])
  }

  /** Whether one path segment fills one pattern position. */
  predicate Accepts(seg: Segment, s: string)
  {
    match seg
    case Literal(t) => s == t
    case Param(_) => |s| > 0 && forall i :: 0 <= i < |s| ==> IsParamChar(s[i])
  }

  /** The segments of a request path `/s1/.../sn`; none when it does not start with `/`. */
  function PathSegments(path: string): Option<seq<string>>
  {
    if path == "" then Some([])
    else if path[0] == '/' then Some(Split(path[1..], '/'))
    else None
  }

  predicate AcceptsAll(p: Pattern, segs: seq<string>)
  {
    |p| == |segs| && forall i :: 0 <= i < |p| ==> Accepts(p[i], segs[i])
  }

  /** No literal segment holds a `/`; true of every compiled template. */
  predicate SlashFreeLiterals(p: Pattern)
  {
    forall i :: 0 <= i < |p| && p[i].Literal? ==> '/' !in p[i].text
  }

  lemma CompilePartsSlashFree(parts: seq<string>)
    requires forall i :: 0 <= i < |parts| ==> '/' !in parts[i]
    ensures SlashFreeLiterals(CompileParts(parts))
  {
    if parts != [] {
      CompilePartsSlashFree(parts[..|parts| - 1]);
    }
  }

  /** Compiled templates have slash-free literals. */
  lemma CompileSlashFree(path: string)
    ensures SlashFreeLiterals(Compile(path))
  {
    SplitPieces(path, '/');
    CompilePartsSlashFree(Split(path, '/'));
  }

  /** Splitting at the first separator. */
  lemma SplitAtFirst(s: string, i: nat)
    requires i < |s| && s[i] == '/' && '/' !in s[..i]
    ensures Split(s, '/') == [s[..i]] + Split(s[i + 1..], '/')
  {
    assert s == s[..i] + ['/'] + s[i + 1..];
    SplitAround(s[..i], '/', s[i + 1..]);
    SplitNoSep(s[..i], '/');
  }

  /** The first `/` in `s`, if any. */
  function FirstSlash(s: string): (r: Option<nat>)
    ensures r.None? ==> '/' !in s
    ensures r.Some? ==> r.value < |s| && s[r.value] == '/' && '/' !in s[..r.value]
  {
    if s == [] then None
    else if s[0] == '/' then Some(0)
    else
      var r := FirstSlash(s[1..]);
      if r.None? then None
      else
        assert s[..r.value + 1] == [s[0]] + s[1..][..r.value];
        Some(r.value + 1)
  }

  /** A suffix that is neither empty nor starts with `/` is not a path. */
  lemma NotAPath(p: Pattern, s: string)
    requires s != "" && s[0] != '/'
    ensures !Matches(p, s) && PathSegments(s).None?
  {
  }

  lemma {:induction false} LiteralStep(t: string, p: Pattern, rest: string)
    requires '/' !in t && SlashFreeLiterals(p)
    requires MatchesIffHolds(p)
    ensures (HasPrefix(rest, t) && Matches(p, rest[|t|..]))
            <==> AcceptsAll([Literal(t)] + p, Split(rest, '/'))
  {
    var segs := Split(rest, '/');
    var q := [Literal(t)] + p;
    assert q[1..] == p;
    match FirstSlash(rest)
    case None =>
      SplitNoSep(rest, '/');
      if HasPrefix(rest, t) && |t| < |rest| {
        assert rest[|t|] in rest;
        NotAPath(p, rest[|t|..]);
      }
      if HasPrefix(rest, t) && |t| == |rest| {
        assert rest[|t|..] == "";
        assert rest == t;
      }
      if AcceptsAll(q, segs) {
        assert Accepts(q[0], segs[0]);
        assert rest == t && rest[|t|..] == "";
      }
    case Some(i) =>
      var a, b := rest[..i], rest[i + 1..];
      SplitAtFirst(rest, i);
      assert segs[1..] == Split(b, '/');
      if HasPrefix(rest, t) && Matches(p, rest[|t|..]) {
        assert a == t;
        assert rest[|t|..][1..] == b;
        forall j | 0 <= j < |q| ensures Accepts(q[j], segs[j]) {
          if j > 0 { assert q[j] == p[j - 1] && segs[j] == Split(b, '/')[j - 1]; }
        }
      }
      if AcceptsAll(q, segs) {
        assert Accepts(q[0], segs[0]);
        assert a == t;
        assert rest[|t|..][1..] == b;
        assert AcceptsAll(p, Split(b, '/')) by {
          forall j | 0 <= j < |p| ensures Accepts(p[j], Split(b, '/')[j]) {
            assert Accepts(q[j + 1], segs[j + 1]);
          }
        }
      }
  }

  /** What `MatchesIff` already knows of the rest of the pattern. */
  ghost predicate MatchesIffHolds(p: Pattern)
  {
    forall s :: Matches(p, s) <==> PathSegments(s).Some? && AcceptsAll(p, PathSegments(s).value)
  }

  /** A parameter step on a rest without `/`: the whole rest is the last segment. */
  lemma ParamStepLast(n: string, p: Pattern, rest: string)
    requires SlashFreeLiterals(p) && MatchesIffHolds(p)
    requires '/' !in rest
    ensures (ParamRun(rest) > 0 && Matches(p, rest[ParamRun(rest)..]))
            <==> AcceptsAll([Param(n)] + p, Split(rest, '/'))
  {
    var q := [Param(n)] + p;
    var k := ParamRun(rest);
    assert q[1..] == p;
    SplitNoSep(rest, '/');
    if k < |rest| {
      assert rest[k] in rest;
      NotAPath(p, rest[k..]);
      assert !Accepts(q[0], rest);
    } else {
      assert rest[k..] == "";
      assert PathSegments("") == Some([]);
      assert Accepts(q[0], rest) <==> k > 0;
    }
  }

  /** A parameter step whose run stops before the first `/`: neither side holds. */
  lemma ParamStepShort(n: string, p: Pattern, rest: string, i: nat)
    requires i < |rest| && rest[i] == '/' && '/' !in rest[..i]
    requires ParamRun(rest) < i
    ensures !(ParamRun(rest) > 0 && Matches(p, rest[ParamRun(rest)..]))
    ensures !AcceptsAll([Param(n)] + p, Split(rest, '/'))
  {
    var k := ParamRun(rest);
    var a := rest[..i];
    SplitAtFirst(rest, i);
    if k > 0 {
      assert rest[k] in a;
      NotAPath(p, rest[k..]);
    }
    assert a[k] == rest[k];
    assert !Accepts(Param(n), a);
    assert Split(rest, '/')[0] == a;
  }

  /** A parameter step whose run reaches the first `/`: the run is the first segment. */
  lemma ParamStepFull(n: string, p: Pattern, rest: string, i: nat)
    requires SlashFreeLiterals(p) && MatchesIffHolds(p)
    requires i < |rest| && rest[i] == '/' && '/' !in rest[..i]
    requires ParamRun(rest) >= i
    ensures (ParamRun(rest) > 0 && Matches(p, rest[ParamRun(rest)..]))
            <==> AcceptsAll([Param(n)] + p, Split(rest, '/'))
  {
    var segs := Split(rest, '/');
    var q := [Param(n)] + p;
    var k := ParamRun(rest);
    var a, b := rest[..i], rest[i + 1..];
    assert q[1..] == p;
    SplitAtFirst(rest, i);
    assert segs[0] == a && segs[1..] == Split(b, '/');
    assert k == i;
    assert rest[k..][1..] == b;
    assert PathSegments(rest[k..]) == Some(Split(b, '/'));
    assert Accepts(q[0], a) <==> k > 0;
    if AcceptsAll(q, segs) {
      assert AcceptsAll(p, Split(b, '/')) by {
        forall j | 0 <= j < |p| ensures Accepts(p[j], Split(b, '/')[j]) {
          assert Accepts(q[j + 1], segs[j + 1]);
        }
      }
    }
    if k > 0 && Matches(p, rest[k..]) {
      forall j | 0 <= j < |q| ensures Accepts(q[j], segs[j]) {
        if j > 0 { assert q[j] == p[j - 1] && segs[j] == Split(b, '/')[j - 1]; }
      }
    }
  }

  lemma {:induction false} ParamStep(n: string, p: Pattern, rest: string)
    requires SlashFreeLiterals(p) && MatchesIffHolds(p)
    ensures (ParamRun(rest) > 0 && Matches(p, rest[ParamRun(rest)..]))
            <==> AcceptsAll([Param(n)] + p, Split(rest, '/'))
  {
    match FirstSlash(rest)
    case None =>
      ParamStepLast(n, p, rest);
    case Some(i) =>
      if ParamRun(rest) < i {
        ParamStepShort(n, p, rest, i);
      } else {
        ParamStepFull(n, p, rest, i);
      }
  }

  /**
   * A pattern with slash-free literals accepts a path exactly when the path is
   * `/s1/.../sn` with one segment per position, each literal position equal to
   * its text and each placeholder position a non-empty run of `[\w-_.]`.
   */
  lemma {:induction false} MatchesIff(p: Pattern, path: string)
    requires SlashFreeLiterals(p)
    ensures Matches(p, path) <==> PathSegments(path).Some? && AcceptsAll(p, PathSegments(path).value)
    decreases |p|
  {
    if p == [] {
      if path != "" && path[0] == '/' {
        assert |Split(path[1..], '/')| >= 1;
      }
    } else if path == "" || path[0] != '/' {
    } else {
      var tail := p[1..];
      assert SlashFreeLiterals(tail) by {
        forall i | 0 <= i < |tail| && tail[i].Literal? ensures '/' !in tail[i].text {
          assert tail[i] == p[i + 1];
        }
      }
      forall s ensures Matches(tail, s) <==> PathSegments(s).Some? && AcceptsAll(tail, PathSegments(s).value) {
        MatchesIff(tail, s);
      }
      assert p == [p[0]] + tail;
      match p[0]
      case Literal(t) =>
        assert '/' !in t;
        LiteralStep(t, tail, path[1..]);
      case Param(n) =>
        ParamStep(n, tail, path[1..]);
    }
  }

  // ---------------------------------------------------------------------
  // Properties of the compiler

  /** The non-empty pieces of `parts`, in order. */
  function NonEmpty(parts: seq<string>): (r: seq<string>)
    ensures forall i :: 0 <= i < |r| ==> r[i] != "" && r[i] in parts
  {
    if parts == [] then []
    else
      var last := parts[|parts| - 1];
      NonEmpty(parts[..|parts| - 1]) + (if last == "" then [] else [last])
  }

  /** Compiling pieces one after another is compiling each non-empty piece in order. */
  lemma {:induction false} CompilePartsIsMap(parts: seq<string>)
    ensures |CompileParts(parts)| == |NonEmpty(parts)|
    ensures forall i :: 0 <= i < |NonEmpty(parts)| ==> CompileParts(parts)[i] == SegmentOf(NonEmpty(parts)[i])
  {
    if parts != [] {
      CompilePartsIsMap(parts[..|parts| - 1]);
    }
  }

  /** Compilation distributes over concatenation of piece lists. */
  lemma {:induction false} CompilePartsAppend(a: seq<string>, b: seq<string>)
    ensures CompileParts(a + b) == CompileParts(a) + CompileParts(b)
    decreases |b|
  {
    if b != [] {
      var b' := b[..|b| - 1];
      assert (a + b)[..|a + b| - 1] == a + b';
      assert (a + b)[|a + b| - 1] == b[|b| - 1];
      CompilePartsAppend(a, b');
    } else {
      assert a + b == a;
    }
  }

  lemma LeadingSlashIgnored(x: string)
    ensures Compile("/" + x) == Compile(x)
  {
    SplitAround("", '/', x);
    assert "" + ['/'] + x == "/" + x;
    CompilePartsAppend([""], Split(x, '/'));
  }

  lemma TrailingSlashIgnored(x: string)
    ensures Compile(x + "/") == Compile(x)
  {
    SplitAround(x, '/', "");
    assert x + ['/'] + "" == x + "/";
    CompilePartsAppend(Split(x, '/'), [""]);
  }

  lemma SplitSingleSlash(x: string, y: string)
    ensures Split(x + "/" + y, '/') == Split(x, '/') + Split(y, '/')
  {
    SplitAround(x, '/', y);
    assert x + ['/'] + y == x + "/" + y;
  }

  lemma SplitDoubledSlash(x: string, y: string)
    ensures Split(x + "//" + y, '/') == Split(x, '/') + ([""] + Split(y, '/'))
  {
    SplitAround("", '/', y);
    assert "" + ['/'] + y == "/" + y;
    SplitAround(x, '/', "/" + y);
    assert x + ['/'] + ("/" + y) == x + "//" + y;
  }

  lemma DoubledSlashIgnored(x: string, y: string)
    ensures Compile(x + "//" + y) == Compile(x + "/" + y)
  {
    var sx, sy := Split(x, '/'), Split(y, '/');
    SplitDoubledSlash(x, y);
    assert Compile(x + "//" + y) == CompileParts(sx + ([""] + sy));
    CompilePartsAppend(sx, [""] + sy);
    CompilePartsAppend([""], sy);
    assert CompileParts([""]) == [];
    assert CompileParts([""] + sy) == CompileParts(sy);
    SplitSingleSlash(x, y);
    assert Compile(x + "/" + y) == CompileParts(sx + sy);
    CompilePartsAppend(sx, sy);
  }

  /**
   * Empty pieces are discarded: a leading slash, a trailing slash or a
   * doubled slash does not change the compiled pattern.
   */
  lemma EmptySegmentsIgnored(x: string, y: string)
    ensures Compile("/" + x) == Compile(x)
    ensures Compile(x + "/") == Compile(x)
    ensures Compile(x + "//" + y) == Compile(x + "/" + y)
  {
    LeadingSlashIgnored(x);
    TrailingSlashIgnored(x);
    DoubledSlashIgnored(x, y);
  }

  /** A piece holding a placeholder compiles to one group named after its first placeholder. */
  lemma PlaceholderSegment(part: string)
    requires FirstPlaceholder(part, 0).Some?
    ensures SegmentOf(part) == Param(FirstPlaceholder(part, 0).value.1)
    ensures RenderSegment(SegmentOf(part))
            == "/(?P<" + FirstPlaceholder(part, 0).value.1 + ">[\\w-_.]+)"
  {
  }

  /** A piece that is exactly `{name}` compiles to the group named `name`. */
  lemma BracedName(name: string)
    requires IsWord(name)
    ensures SegmentOf("{" + name + "}") == Param(name)
  {
    var s := "{" + name + "}";
    assert PlaceholderAt(s, 0, name) by {
      assert s[1..1 + |name|] == name;
    }
  }

  /** A piece without `{` is pasted verbatim after a `/`. */
  lemma LiteralSegment(part: string)
    requires '{' !in part
    ensures SegmentOf(part) == Literal(part)
    ensures RenderSegment(SegmentOf(part)) == "/" + part
  {
  }

  // The worked examples below take each template string as an argument fixed
  // by `requires t == "..."` instead of writing the literal inside `Split(...)`
  // or `Compile(...)`: the verifier evaluates a recursive function applied to a
  // literal eagerly, and on a string of this length that unfolding runs out of
  // resources. `JoinQuoteTemplate`, `JoinSymbolsTemplate` and `AnchorSymbols`
  // are the small literal computations the examples are assembled from.

  /** A template given by the slash-free pieces it joins splits back into them. */
  lemma SplitTemplate(t: string, parts: seq<string>)
    requires |parts| >= 1 && forall i :: 0 <= i < |parts| ==> '/' !in parts[i]
    requires t == Join(parts, '/')
    ensures Split(t, '/') == parts
  {
    SplitJoin(parts, '/');
  }

  lemma JoinQuoteTemplate()
    ensures Join(["", "v7", "quote"], '/') == "/v7/quote"
  {
  }

  lemma JoinSymbolsTemplate()
    ensures Join(["", "v7", "quote", "{symbols}"], '/') == "/v7/quote/{symbols}"
  {
  }

  lemma SplitQuoteTemplate(t: string)
    requires t == "/v7/quote"
    ensures Split(t, '/') == ["", "v7", "quote"]
  {
    JoinQuoteTemplate();
    SplitTemplate(t, ["", "v7", "quote"]);
  }

  lemma SplitSymbolsTemplate(t: string)
    requires t == "/v7/quote/{symbols}"
    ensures Split(t, '/') == ["", "v7", "quote", "{symbols}"]
  {
    JoinSymbolsTemplate();
    SplitTemplate(t, ["", "v7", "quote", "{symbols}"]);
  }

  lemma CompileQuoteParts()
    ensures CompileParts(["", "v7", "quote"]) == [Literal("v7"), Literal("quote")]
  {
    LiteralSegment("v7");
    LiteralSegment("quote");
    var parts := ["", "v7", "quote"];
    assert parts[..2][..1] == [""];
    assert parts[..2] == ["", "v7"];
    assert CompileParts([""]) == [];
    assert CompileParts(["", "v7"]) == [Literal("v7")];
  }

  lemma RenderQuoteSegments()
    ensures RenderSegments([Literal("v7"), Literal("quote")]) == "/v7/quote"
  {
    var p := [Literal("v7"), Literal("quote")];
    assert p[..1] == [Literal("v7")];
    assert RenderSegments(p[..1]) == "/v7";
  }

  lemma CompileQuoteTemplate(t: string)
    requires t == "/v7/quote"
    ensures Compile(t) == [Literal("v7"), Literal("quote")]
  {
    SplitQuoteTemplate(t);
    CompileQuoteParts();
  }

  lemma RenderQuotePattern()
    ensures Render([Literal("v7"), Literal("quote")]) == "\\A/v7/quote\\z"
  {
    RenderQuoteSegments();
  }

  /** The literal template of server/server_test.go and the pattern it compiles to. */
  lemma CompileQuoteExample(t: string)
    requires t == "/v7/quote"
    ensures Compile(t) == [Literal("v7"), Literal("quote")]
    ensures Render(Compile(t)) == "\\A/v7/quote\\z"
  {
    CompileQuoteTemplate(t);
    RenderQuotePattern();
  }

  lemma CompileSymbolsParts()
    ensures CompileParts(["", "v7", "quote", "{symbols}"]) == [Literal("v7"), Literal("quote"), Param("symbols")]
  {
    var parts := ["", "v7", "quote", "{symbols}"];
    assert parts[..3] == ["", "v7", "quote"];
    CompileQuoteParts();
    BracedName("symbols");
    assert "{symbols}" == "{" + "symbols" + "}";
  }

  lemma RenderSymbolsSegments()
    ensures RenderSegments([Literal("v7"), Literal("quote"), Param("symbols")])
            == "/v7/quote/(?P<symbols>[\\w-_.]+)"
  {
    var p := [Literal("v7"), Literal("quote"), Param("symbols")];
    assert p[..2] == [Literal("v7"), Literal("quote")];
    RenderQuoteSegments();
  }

  lemma CompileSymbolsTemplate(t: string)
    requires t == "/v7/quote/{symbols}"
    ensures Compile(t) == [Literal("v7"), Literal("quote"), Param("symbols")]
  {
    SplitSymbolsTemplate(t);
    CompileSymbolsParts();
  }

  lemma AnchorSymbols(r: string)
    requires r == "/v7/quote/(?P<symbols>[\\w-_.]+)"
    ensures "\\A" + r + "\\z" == "\\A/v7/quote/(?P<symbols>[\\w-_.]+)\\z"
  {
  }

  lemma RenderSymbolsPattern()
    ensures Render([Literal("v7"), Literal("quote"), Param("symbols")])
            == "\\A/v7/quote/(?P<symbols>[\\w-_.]+)\\z"
  {
    RenderSymbolsSegments();
    AnchorSymbols(RenderSegments([Literal("v7"), Literal("quote"), Param("symbols")]));
  }

  /** The placeholder template of server/server_test.go and the pattern it compiles to. */
  lemma CompileSymbolsExample(t: string)
    requires t == "/v7/quote/{symbols}"
    ensures Compile(t) == [Literal("v7"), Literal("quote"), Param("symbols")]
    ensures Render(Compile(t)) == "\\A/v7/quote/(?P<symbols>[\\w-_.]+)\\z"
  {
    CompileSymbolsTemplate(t);
    RenderSymbolsPattern();
  }

  /**
   * The test file expects the rendered expressions without the closing `\z`
   * that `compilePath` appends, so those two assertions do not hold of the code.
   */
  lemma RenderDiffersFromTestExpectation(quote: string, symbols: string)
    requires quote == "/v7/quote" && symbols == "/v7/quote/{symbols}"
    ensures Render(Compile(quote)) != "\\A/v7/quote"
    ensures Render(Compile(symbols)) != "\\A/v7/quote/(?P<symbols>[\\w-_.]+)"
  {
    CompileQuoteExample(quote);
    CompileSymbolsExample(symbols);
  }

  /** The segments of `/` followed by slash-free pieces joined with `/` are those pieces. */
  lemma SegmentsOfJoined(parts: seq<string>)
    requires |parts| >= 1 && forall i :: 0 <= i < |parts| ==> '/' !in parts[i]
    ensures PathSegments("/" + Join(parts, '/')) == Some(parts)
  {
    SplitJoin(parts, '/');
    assert ("/" + Join(parts, '/'))[1..] == Join(parts, '/');
  }

  lemma QuotePath(sym: string)
    requires '/' !in sym
    ensures PathSegments("/v7/quote/" + sym) == Some(["v7", "quote", sym])
  {
    var parts := ["v7", "quote", sym];
    assert Join(parts[2..], '/') == sym;
    assert Join(parts[1..], '/') == "quote/" + sym;
    assert "/" + Join(parts, '/') == "/v7/quote/" + sym;
    SegmentsOfJoined(parts);
  }

  lemma QuotePath2(a: string, b: string)
    requires '/' !in a && '/' !in b
    ensures PathSegments("/v7/quote/" + a + "/" + b) == Some(["v7", "quote", a, b])
  {
    var parts := ["v7", "quote", a, b];
    assert Join(parts[3..], '/') == b;
    assert Join(parts[2..], '/') == a + "/" + b;
    assert Join(parts[1..], '/') == "quote/" + a + "/" + b;
    assert "/" + Join(parts, '/') == "/v7/quote/" + a + "/" + b;
    SegmentsOfJoined(parts);
  }

  lemma QuoteTemplateSlashFree(p: Pattern)
    requires p == [Literal("v7"), Literal("quote"), Param("symbols")] || p == [Literal("v7"), Literal("quote")]
    ensures SlashFreeLiterals(p)
  {
  }

  lemma AcceptsAAPL(p: Pattern, path: string)
    requires p == [Literal("v7"), Literal("quote"), Param("symbols")]
    requires path == "/v7/quote/AAPL"
    ensures Matches(p, path)
  {
    QuoteTemplateSlashFree(p);
    QuotePath("AAPL");
    assert "/v7/quote/" + "AAPL" == path;
    assert Accepts(p[2], "AAPL");
    MatchesIff(p, path);
  }

  lemma AcceptsPunctuatedSymbol(p: Pattern, path: string)
    requires p == [Literal("v7"), Literal("quote"), Param("symbols")]
    requires path == "/v7/quote/BRK-B.A_1"
    ensures Matches(p, path)
  {
    QuoteTemplateSlashFree(p);
    QuotePath("BRK-B.A_1");
    assert "/v7/quote/" + "BRK-B.A_1" == path;
    assert Accepts(p[2], "BRK-B.A_1");
    MatchesIff(p, path);
  }

  lemma RejectsEmptySymbol(p: Pattern, path: string)
    requires p == [Literal("v7"), Literal("quote"), Param("symbols")]
    requires path == "/v7/quote/"
    ensures !Matches(p, path)
  {
    QuoteTemplateSlashFree(p);
    QuotePath("");
    assert "/v7/quote/" + "" == path;
    assert !Accepts(p[2], "");
    MatchesIff(p, path);
  }

  /** Two slash-free pieces after `/v7/quote/` make one segment too many for the symbols pattern. */
  lemma RejectsTwoSymbolSegments(p: Pattern, a: string, b: string)
    requires p == [Literal("v7"), Literal("quote"), Param("symbols")]
    requires '/' !in a && '/' !in b
    ensures !Matches(p, "/v7/quote/" + a + "/" + b)
  {
    QuoteTemplateSlashFree(p);
    QuotePath2(a, b);
    MatchesIff(p, "/v7/quote/" + a + "/" + b);
  }

  lemma RejectsExtraSegment(p: Pattern, path: string)
    requires p == [Literal("v7"), Literal("quote")]
    requires path == "/v7/quote/AAPL"
    ensures !Matches(p, path)
  {
    QuoteTemplateSlashFree(p);
    QuotePath("AAPL");
    assert "/v7/quote/" + "AAPL" == path;
    MatchesIff(p, path);
  }

  lemma TwoPiecePaths()
    ensures "/v7/quote/" + "AA" + "/" + "PL" == "/v7/quote/AA/PL"
    ensures "/v7/quote/" + "AAPL" + "/" + "" == "/v7/quote/AAPL/"
  {
  }

  /** What the compiled quote templates accept and reject. */
  lemma MatchExamples(quote: string, symbols: string)
    requires quote == "/v7/quote" && symbols == "/v7/quote/{symbols}"
    ensures Matches(Compile(symbols), "/v7/quote/AAPL")
    ensures Matches(Compile(symbols), "/v7/quote/BRK-B.A_1")
    ensures !Matches(Compile(symbols), "/v7/quote/")
    ensures !Matches(Compile(symbols), "/v7/quote/AA/PL")
    ensures !Matches(Compile(symbols), "/v7/quote/AAPL/")
    ensures !Matches(Compile(quote), "/v7/quote/AAPL")
  {
    CompileQuoteTemplate(quote);
    CompileSymbolsTemplate(symbols);
    var p := Compile(symbols);
    AcceptsAAPL(p, "/v7/quote/AAPL");
    AcceptsPunctuatedSymbol(p, "/v7/quote/BRK-B.A_1");
    RejectsEmptySymbol(p, "/v7/quote/");
    TwoPiecePaths();
    RejectsTwoSymbolSegments(p, "AA", "PL");
    RejectsTwoSymbolSegments(p, "AAPL", "");
    RejectsExtraSegment(Compile(quote), "/v7/quote/AAPL");
  }

  /**
   * A template never matches its own compiled pattern once it holds a
   * placeholder: the braces of `{name}` are not in the group's class.
   */
  lemma {:induction false} TemplateMissesOwnPattern(t: string, i: nat)
    requires i < |Compile(t)| && Compile(t)[i].Param?
    ensures !Matches(Compile(t), t)
  {
    var p := Compile(t);
    CompileSlashFree(t);
    MatchesIff(p, t);
    if Matches(p, t) {
      var segs := PathSegments(t).value;
      CompileBelowSlash(t);
      OwnSegments(segs, i);
      assert false;
    }
  }

  /** A template starting with `/` compiles like the pieces after it. */
  lemma CompileBelowSlash(t: string)
    requires t != "" && t[0] == '/'
    ensures Compile(t) == CompileParts(Split(t[1..], '/'))
  {
    SplitAround("", '/', t[1..]);
    assert "" + ['/'] + t[1..] == t;
    CompilePartsAppend([""], Split(t[1..], '/'));
  }

  /** Pieces whose compiled pattern accepts them hold no placeholder. */
  lemma OwnSegments(segs: seq<string>, i: nat)
    requires i < |CompileParts(segs)| && CompileParts(segs)[i].Param?
    ensures !AcceptsAll(CompileParts(segs), segs)
  {
    var p := CompileParts(segs);
    if AcceptsAll(p, segs) {
      CompilePartsIsMap(segs);
      NonEmptyAll(segs);
    }
  }

  lemma {:induction false} NonEmptyAll(parts: seq<string>)
    requires |NonEmpty(parts)| == |parts|
    ensures NonEmpty(parts) == parts
  {
    if parts != [] {
      var init := parts[..|parts| - 1];
      assert |NonEmpty(init)| <= |init| by { NonEmptyShorter(init); }
      NonEmptyAll(init);
      assert parts == init + [parts[|parts| - 1]];
    }
  }

  lemma {:induction false} NonEmptyShorter(parts: seq<string>)
    ensures |NonEmpty(parts)| <= |parts|
  {
    if parts != [] {
      NonEmptyShorter(parts[..|parts| - 1]);
    }
  }
}
