/**
 `SecretRef::parse` and its `Display` in `crates/spt-auth/src/secret_ref.rs`.

 The serde form goes through both, so a stored reference survives exactly when
 printing and parsing it gives it back.
 */
module SecretRefs {

  import opened Basics
  import opened Text

  datatype SecretRef = Vault(ns: string, name: string) | Env(variable: string) | File(path: string)

  datatype RefError =
    | UnknownScheme(input: string)
    | MissingNameSeparator(input: string)
    | EmptyNamespace(input: string)
    | EmptyName(input: string)
    | EmptyEnvName(input: string)
    | BadFileUri(input: string)

  datatype Result = Ok(value: SecretRef) | Err(error: RefError)

  const VAULT := "secret://"
  const ENV := "env:"
  const FILE := "file://"

  predicate DriveLike(path: string) { |path| > 1 && path[1] == ':' }

  function Parse(input: string): (r: Result)
    ensures r.Err? ==> r.error.input == Trim(input)
  {
    var s := Trim(input);
    if VAULT <= s then ParseVault(s, s[|VAULT|..])
    else if ENV <= s then
      var name := s[|ENV|..];
      if name == [] then Err(EmptyEnvName(s)) else Ok(Env(name))
    else if FILE <= s then ParseFile(s, s[|FILE|..])
    else Err(UnknownScheme(s))
  }

  function ParseVault(s: string, rest: string): Result
  {
    match SplitOnce(rest, '/')
    case None => Err(MissingNameSeparator(s))
    case Some((ns, name)) =>
      if ns == [] then Err(EmptyNamespace(s))
      else if name == [] then Err(EmptyName(s))
      else Ok(Vault(ns, name))
  }

  function ParseFile(s: string, rest: string): Result
  {
    var path := if "/" <= rest then rest[1..] else rest;
    if path == [] then Err(BadFileUri(s))
    else Ok(File(if DriveLike(path) then path else "/" + path))
  }

  function Print(r: SecretRef): string
  {
    match r
    case Vault(ns, name) => VAULT + ns + "/" + name
    case Env(n) => ENV + n
    case File(p) => if "/" <= p then FILE + p else FILE + "/" + p
  }

  // ----- What parse can return -----

  predicate EndsInText(s: string) { s != [] && !IsWhitespace(s[|s| - 1]) }

  /** The references that `Parse` can return. */
  predicate Parsable(r: SecretRef)
  {
    match r
    case Vault(ns, name) => ns != [] && '/' !in ns && EndsInText(name)
    case Env(n) => EndsInText(n)
    case File(p) => EndsInText(p) && (DriveLike(p) || (|p| > 1 && p[0] == '/' && !DriveLike(p[1..])))
  }

  /** A file path that printing turns into one `Parse` takes for a drive. */
  predicate LosesSlash(r: SecretRef) { r.File? && "/::" <= r.path }

  lemma SuffixEnds(s: string, k: nat)
    requires k < |s| && Trimmed(s)
    ensures EndsInText(s[k..])
  {
  }

  lemma VaultIsParsable(s: string)
    requires Trimmed(s) && VAULT <= s && ParseVault(s, s[|VAULT|..]).Ok?
    ensures Parsable(ParseVault(s, s[|VAULT|..]).value)
  {
    var (ns, name) := SplitOnce(s[|VAULT|..], '/').value;
    SuffixEnds(s, |VAULT| + |ns| + 1);
    assert name == s[|VAULT|..][|ns| + 1..] == s[|VAULT| + |ns| + 1..];
  }

  lemma FileIsParsable(s: string)
    requires Trimmed(s) && FILE <= s && ParseFile(s, s[|FILE|..]).Ok?
    ensures Parsable(ParseFile(s, s[|FILE|..]).value)
  {
    var rest := s[|FILE|..];
    var path := if "/" <= rest then rest[1..] else rest;
    if "/" <= rest {
      assert path == s[|FILE| + 1..];
      SuffixEnds(s, |FILE| + 1);
    } else {
      SuffixEnds(s, |FILE|);
    }
    PathIsParsable(path);
  }

  lemma PathIsParsable(path: string)
    requires EndsInText(path)
    ensures Parsable(File(if DriveLike(path) then path else "/" + path))
  {
    assert ("/" + path)[1..] == path;
  }

  lemma ParsedIsParsable(input: string)
    requires Parse(input).Ok?
    ensures Parsable(Parse(input).value)
  {
    var s := Trim(input);
    TrimTrims(input);
    if VAULT <= s {
      VaultIsParsable(s);
    } else if ENV <= s {
      SuffixEnds(s, |ENV|);
    } else {
      FileIsParsable(s);
    }
  }

  /** Acceptance, by the shape of the trimmed input alone. */
  lemma AcceptedIff(input: string)
    ensures var s := Trim(input);
            Parse(input).Ok? <==>
            || (VAULT < s && s[|VAULT|] != '/' && exists i :: |VAULT| < i < |s| - 1 && s[i] == '/')
            || ENV < s
            || (FILE < s && s != FILE + "/")
  {
    var s := Trim(input);
    Schemes(s);
    if VAULT <= s {
      VaultAcceptedIff(s);
    } else if FILE <= s {
      assert s == FILE + s[|FILE|..];
      assert s != FILE + "/" ==> s[|FILE|..] != "/";
    }
  }

  lemma VaultAcceptedIff(s: string)
    requires VAULT <= s
    ensures ParseVault(s, s[|VAULT|..]).Ok? <==>
            VAULT < s && s[|VAULT|] != '/' && exists i :: |VAULT| < i < |s| - 1 && s[i] == '/'
  {
    var rest := s[|VAULT|..];
    if '/' in rest {
      var (ns, name) := SplitOnce(rest, '/').value;
      assert s[|VAULT| + |ns|] == rest[|ns|] == '/';
      assert forall i :: |VAULT| <= i < |s| ==> s[i] == rest[i - |VAULT|];
      assert forall j :: 0 <= j < |ns| ==> rest[j] == ns[j];
    } else {
      assert forall i :: |VAULT| <= i < |s| ==> s[i] == rest[i - |VAULT|];
    }
  }

  lemma Schemes(s: string)
    ensures VAULT <= s ==> !(ENV <= s) && !(FILE <= s)
    ensures ENV <= s ==> !(FILE <= s)
  {
    assert VAULT <= s ==> s[0] == 's';
    assert ENV <= s ==> s[0] == 'e';
    assert FILE <= s ==> s[0] == 'f';
  }

  lemma VaultParts(s: string, rest: string, ns: string, name: string)
    requires s == VAULT + rest
    ensures s == VAULT + ns + "/" + name <==> rest == ns + ['/'] + name
  {
    var tail := ns + ['/'] + name;
    assert VAULT + ns + "/" + name == VAULT + tail;
    assert s[|VAULT|..] == rest && (VAULT + tail)[|VAULT|..] == tail;
  }

  /** Exactly the inputs that name this vault entry. */
  lemma VaultIff(input: string, ns: string, name: string)
    ensures Parse(input) == Ok(Vault(ns, name)) <==>
            ns != [] && '/' !in ns && name != [] && Trim(input) == VAULT + ns + "/" + name
  {
    var s := Trim(input);
    Schemes(s);
    if VAULT <= s {
      var rest := s[|VAULT|..];
      assert s == VAULT + rest;
      VaultParts(s, rest, ns, name);
      if '/' !in ns && rest == ns + ['/'] + name {
        SplitOnceJoins(ns, '/', name);
      }
    } else {
      assert VAULT <= VAULT + ns + "/" + name;
    }
  }

  lemma EnvIff(input: string, n: string)
    ensures Parse(input) == Ok(Env(n)) <==> n != [] && Trim(input) == ENV + n
  {
    var s := Trim(input);
    Schemes(s);
    if ENV <= s {
      assert s == ENV + s[|ENV|..];
    }
  }

  /** What becomes of the path after the scheme and at most one slash. */
  function Normalized(path: string): string { if DriveLike(path) then path else "/" + path }

  /** `s` is a file URI whose path, past one optional slash, is `path`. */
  predicate FileUri(s: string, path: string)
  {
    s == FILE + "/" + path || (s == FILE + path && !("/" <= path))
  }

  lemma FileUriPath(s: string)
    requires FILE <= s
    ensures var rest := s[|FILE|..];
            forall path :: FileUri(s, path) <==> path == if "/" <= rest then rest[1..] else rest
  {
    var rest := s[|FILE|..];
    assert s == FILE + rest;
    forall path ensures FileUri(s, path) <==> path == if "/" <= rest then rest[1..] else rest {
      assert FILE + "/" + path == FILE + ("/" + path);
      assert s == FILE + "/" + path <==> rest == "/" + path by {
        assert (FILE + ("/" + path))[|FILE|..] == "/" + path;
      }
      assert s == FILE + path <==> rest == path by {
        assert (FILE + path)[|FILE|..] == path;
      }
      assert "/" <= rest ==> rest == "/" + rest[1..];
      assert ("/" + path)[1..] == path;
    }
  }

  /** Exactly the inputs that name this file. */
  lemma FileIff(input: string, p: string)
    ensures Parse(input) == Ok(File(p)) <==>
            exists path :: path != [] && FileUri(Trim(input), path) && p == Normalized(path)
  {
    var s := Trim(input);
    Schemes(s);
    if FILE <= s {
      FileUriPath(s);
      var rest := s[|FILE|..];
      var path := if "/" <= rest then rest[1..] else rest;
      assert FileUri(s, path);
    } else {
      forall path ensures !FileUri(s, path) {
        assert FILE <= FILE + path && FILE <= FILE + "/" + path;
      }
    }
  }

  /** Which error each rejected input gets. */
  lemma RejectedIff(input: string)
    ensures var s, r := Trim(input), Parse(input);
            && (r == Err(MissingNameSeparator(s)) <==> VAULT <= s && '/' !in s[|VAULT|..])
            && (r == Err(EmptyNamespace(s)) <==> VAULT + "/" <= s)
            && (r == Err(EmptyName(s)) <==> exists ns :: ns != [] && '/' !in ns && s == VAULT + ns + "/")
            && (r == Err(EmptyEnvName(s)) <==> s == ENV)
            && (r == Err(BadFileUri(s)) <==> s == FILE || s == FILE + "/")
            && (r == Err(UnknownScheme(s)) <==> !(VAULT <= s) && !(ENV <= s) && !(FILE <= s))
  {
    var s := Trim(input);
    Schemes(s);
    if VAULT <= s {
      VaultRejectedIff(s);
    } else {
      NotVault(s);
    }
    if FILE <= s {
      assert s == FILE + s[|FILE|..];
      assert (FILE + "/")[|FILE|..] == "/";
    }
  }

  lemma NotVault(s: string)
    requires !(VAULT <= s)
    ensures !(VAULT + "/" <= s)
    ensures forall ns :: s != VAULT + ns + "/"
  {
    forall ns ensures s != VAULT + ns + "/" {
      assert VAULT <= VAULT + ns + "/";
    }
  }

  lemma VaultRejectedIff(s: string)
    requires VAULT <= s
    ensures var r := ParseVault(s, s[|VAULT|..]);
            && (r == Err(MissingNameSeparator(s)) <==> '/' !in s[|VAULT|..])
            && (r == Err(EmptyNamespace(s)) <==> VAULT + "/" <= s)
            && (r == Err(EmptyName(s)) <==> exists ns :: ns != [] && '/' !in ns && s == VAULT + ns + "/")
  {
    var rest := s[|VAULT|..];
    assert s == VAULT + rest;
    forall ns | '/' !in ns && s == VAULT + ns + "/" ensures SplitOnce(rest, '/') == Some((ns, [])) {
      assert rest == ns + ['/'] + [];
      SplitOnceJoins(ns, '/', []);
    }
    if VAULT + "/" <= s {
      assert rest[0] == '/';
      assert rest == [] + ['/'] + rest[1..];
      SplitOnceJoins([], '/', rest[1..]);
    }
    if '/' in rest {
      var (ns, name) := SplitOnce(rest, '/').value;
      if ns == [] {
        assert rest[0] == '/';
      } else if name == [] {
        assert s == VAULT + ns + "/";
      }
    }
  }

  // ----- Reading back -----

  lemma TextIsTrimmed(prefix: string, s: string)
    requires prefix != [] && !IsWhitespace(prefix[0]) && EndsInText(s)
    ensures Trim(prefix + s) == prefix + s
  {
    TrimTrims(prefix + s);
  }

  lemma ReadVault(ns: string, name: string)
    requires Parsable(Vault(ns, name))
    ensures Parse(Print(Vault(ns, name))) == Ok(Vault(ns, name))
  {
    var s, rest := Print(Vault(ns, name)), ns + ['/'] + name;
    assert s == VAULT + rest;
    TextIsTrimmed(VAULT, rest);
    assert s[|VAULT|..] == rest;
    SplitOnceJoins(ns, '/', name);
  }

  lemma ReadEnv(n: string)
    requires EndsInText(n)
    ensures Parse(Print(Env(n))) == Ok(Env(n))
  {
    TextIsTrimmed(ENV, n);
    var s := ENV + n;
    assert s[0] == 'e' && s[|ENV|..] == n;
  }

  /** A file URI reads as whatever follows its scheme. */
  lemma ReadFile(rest: string)
    requires EndsInText(rest)
    ensures Parse(FILE + rest) == ParseFile(FILE + rest, rest)
  {
    TextIsTrimmed(FILE, rest);
    var s := FILE + rest;
    assert s[0] == 'f' && s[|FILE|..] == rest;
  }

  lemma ReadFilePath(p: string)
    requires Parsable(File(p))
    ensures Parse(Print(File(p))) == Ok(if LosesSlash(File(p)) then File(p[1..]) else File(p))
  {
    if "/" <= p {
      ReadFile(p);
      assert "/" + p[1..] == p;
    } else {
      var rest := "/" + p;
      assert FILE + "/" + p == FILE + rest;
      ReadFile(rest);
      assert rest[1..] == p;
    }
  }

  /** Printing and parsing gives a reference back exactly when it is one `Parse`
      returns and its path does not start with `/::`. */
  lemma RoundTripIff(r: SecretRef)
    ensures Parse(Print(r)) == Ok(r) <==> Parsable(r) && !LosesSlash(r)
  {
    if Parsable(r) {
      ReadAny(r);
    } else if Parse(Print(r)) == Ok(r) {
      ParsedIsParsable(Print(r));
    }
  }

  lemma ReadAny(r: SecretRef)
    requires Parsable(r)
    ensures Parse(Print(r)) == Ok(if LosesSlash(r) then File(r.path[1..]) else r)
  {
    match r
    case Vault(ns, name) => ReadVault(ns, name);
    case Env(n) => ReadEnv(n);
    case File(p) => ReadFilePath(p);
  }

  lemma WithoutSlash(r: SecretRef)
    requires Parsable(r) && LosesSlash(r)
    ensures Parsable(File(r.path[1..])) && !LosesSlash(File(r.path[1..]))
  {
  }

  /** For every input that parses, one pass of printing and parsing settles it: a
      second pass changes nothing. */
  lemma SecondPassIsStable(input: string)
    requires Parse(input).Ok?
    ensures Parse(Print(Parse(input).value)).Ok?
    ensures var once := Parse(Print(Parse(input).value)).value;
            Parse(Print(once)) == Ok(once)
  {
    var r := Parse(input).value;
    ParsedIsParsable(input);
    ReadAny(r);
    var once := if LosesSlash(r) then File(r.path[1..]) else r;
    if LosesSlash(r) {
      WithoutSlash(r);
    }
    RoundTripIff(once);
  }

  /** The first pass does change some: a path that keeps its slash because of the
      colon after it loses that slash. */
  lemma SlashLost()
    ensures Parse("file:////::x") == Ok(File("/::x"))
    ensures Parse(Print(File("/::x"))) == Ok(File("::x"))
  {
    SlashKept();
    ReadFilePath("/::x");
    assert "/::x"[1..] == "::x";
  }

  lemma SlashKept()
    ensures Parse("file:////::x") == Ok(File("/::x"))
  {
    ReadFile("//::x");
    assert FILE + "//::x" == "file:////::x";
    assert "//::x"[1..] == "/::x";
  }

  /** `Parsable` is exact: it holds of a reference iff some input parses to it. */
  lemma ParsableIff(r: SecretRef)
    ensures Parsable(r) <==> exists s :: Parse(s) == Ok(r)
  {
    if Parsable(r) {
      if LosesSlash(r) {
        var rest := "/" + r.path;
        ReadFile(rest);
        assert rest[1..] == r.path;
        assert Parse(FILE + rest) == Ok(r);
      } else {
        RoundTripIff(r);
      }
    }
    if s :| Parse(s) == Ok(r) {
      ParsedIsParsable(s);
    }
  }

  // ----- In literal text -----

  lemma LiteralVault(ns: string, name: string)
    requires ns != [] && '/' !in ns && EndsInText(name)
    ensures Parse("secret://" + ns + "/" + name) == Ok(Vault(ns, name))
    ensures Print(Vault(ns, name)) == "secret://" + ns + "/" + name
  {
    ReadVault(ns, name);
  }

  lemma LiteralEnv(n: string)
    requires EndsInText(n)
    ensures Parse("env:" + n) == Ok(Env(n)) && Print(Env(n)) == "env:" + n
  {
    ReadEnv(n);
  }

  /** With two slashes or three: a drive path is taken as it is, any other gets a slash. */
  lemma LiteralFile(path: string)
    requires EndsInText(path) && !("/" <= path)
    ensures var p := if |path| > 1 && path[1] == ':' then path else "/" + path;
            Parse("file://" + path) == Ok(File(p)) && Parse("file://" + ("/" + path)) == Ok(File(p))
  {
    ReadFile(path);
    ReadFile("/" + path);
    assert ("/" + path)[1..] == path;
  }

  lemma LiteralFilePrint(path: string)
    requires EndsInText(path) && !("/" <= path)
    ensures var p := if |path| > 1 && path[1] == ':' then path else "/" + path;
            Print(File(p)) == "file://" + ("/" + path)
  {
    assert FILE + "/" + path == FILE + ("/" + path);
  }

  /** Whitespace around a reference is ignored. */
  lemma PaddedReads(a: string, s: string, b: string)
    requires AllWhitespace(a) && AllWhitespace(b) && Trimmed(s)
    ensures Parse(a + s + b) == Parse(s)
  {
    TrimIsUnique(a + s + b, a, s, b);
    TrimTrims(s);
  }
}
