/** The laws of path resolution. */
module PathLaws {
  import opened Common
  import opened Paths
  import opened PathResolution

  // ----- within the buffer and the component array, resolution is a fold -----

  /** The joined path fits the buffer and its words fit the component array. */
  predicate WithinLimits(base: string, path: string) {
    |Joined(base, path)| < PATH_SIZE && WithinDepth([], Tokens(Slashes(Joined(base, path))))
  }

  /** The words of a path as its user wrote it. */
  function Words(path: string): seq<string> { Tokens(Slashes(path)) }

  lemma SlashesJoin(a: string, b: string)
    ensures Slashes(a + "/" + b) == Slashes(a) + "/" + Slashes(b)
  {
  }

  lemma WordsOfJoined(base: string, path: string)
    ensures Words(Joined(base, path))
            == (if Absolute(path) then [] else if base == "/" then [] else Words(base)) + Words(path)
  {
    if Absolute(path) {
      assert [] + Words(path) == Words(path);
    } else if base == "/" {
      SlashesJoin("", path);
      TokensOfJoin("", Slashes(path), "");
      assert "" + "/" + path == "/" + path;
    } else {
      SlashesJoin(base, path);
      TokensOfJoin(Slashes(base), Slashes(path), "");
    }
  }

  lemma {:induction false} WordsOfRoot()
    ensures Words("/") == []
  {
    assert Slashes("/") == "/";
    assert Tokens("/") == [] + TokensAfter("/"[1..], "");
  }

  lemma ComponentsAreFold(base: string, path: string)
    requires WithinLimits(base, path)
    ensures Components(base, path) == Fold([], Words(Joined(base, path)))
  {
    TokensOfNormalizeSlashes(Joined(base, path));
    LimitHarmless([], Words(Joined(base, path)));
  }

  /** Resolution folds the base's words and then the path's over the component stack, clamped at the root. */
  lemma ResolutionIsFold(base: string, path: string)
    requires WithinLimits(base, path)
    ensures Components(base, path) == Fold(if Absolute(path) then [] else Fold([], Words(base)), Words(path))
  {
    ComponentsAreFold(base, path);
    WordsOfJoined(base, path);
    WordsOfRoot();
    FoldJoin([], if Absolute(path) then [] else if base == "/" then [] else Words(base), Words(path));
  }

  // ----- accepted paths are canonical -----

  ghost predicate CanonicalComponents(components: seq<string>) {
    && |components| <= MAX_COMPONENTS
    && (forall c | c in components :: Word(c) && c != "." && c != "..")
    && |Render(components)| < PATH_SIZE
    && ValidPath(Render(components)[1..])
  }

  /** The name of a place: the rendering of resolved components. */
  ghost predicate Canonical(path: string) {
    exists components :: CanonicalComponents(components) && path == Render(components)
  }

  lemma ResolveKeepsWords(stack: seq<string>, token: string)
    requires Word(token) && forall c | c in stack :: Word(c) && c != "." && c != ".."
    ensures forall c | c in Resolve(stack, token) :: Word(c) && c != "." && c != ".."
  {
    forall c | c in Resolve(stack, token) ensures Word(c) && c != "." && c != ".." {
      if c !in stack { assert c == token && token != "." && token != ".."; }
    }
  }

  lemma {:induction false} FoldLimitedWords(stack: seq<string>, tokens: seq<string>)
    requires forall t | t in tokens :: Word(t)
    requires |stack| <= MAX_COMPONENTS && forall c | c in stack :: Word(c) && c != "." && c != ".."
    ensures var r := FoldLimited(stack, tokens);
      |r| <= MAX_COMPONENTS && forall c | c in r :: Word(c) && c != "." && c != ".."
    decreases tokens
  {
    if tokens != [] && |stack| < MAX_COMPONENTS {
      assert tokens[0] in tokens;
      ResolveKeepsWords(stack, tokens[0]);
      FoldLimitedWords(Resolve(stack, tokens[0]), tokens[1..]);
    }
  }

  lemma CollapseKeepsBackslashesOut(s: string, afterSlash: bool)
    requires forall i | 0 <= i < |s| :: s[i] != '\\'
    ensures forall i | 0 <= i < |Collapse(s, afterSlash)| :: Collapse(s, afterSlash)[i] != '\\'
  {
  }

  lemma ComponentsAreWords(base: string, path: string)
    ensures |Components(base, path)| <= MAX_COMPONENTS
    ensures forall c | c in Components(base, path) :: Word(c) && c != "." && c != ".."
  {
    var s := Cut(Joined(base, path), PATH_SIZE - 1);
    CollapseKeepsBackslashesOut(Slashes(s), false);
    TokensAreWords(NormalizeSlashes(s), "");
    FoldLimitedWords([], Tokens(NormalizeSlashes(s)));
  }

  /** The length a list of words takes when each is written after a slash. */
  lemma {:induction false} TokensLength(s: string, word: string)
    ensures |Join(TokensAfter(s, word))| <= |s| + |word| + 1
    ensures s != "" && s[0] == '/' ==> |Join(TokensAfter(s, word))| <= |s| + |word| + (if word == "" then 0 else 1)
    ensures word != "" ==> TokensAfter(s, word) != []
  {
    if s == "" {
      if word != "" { assert Join([word]) == "/" + word + Join([]); }
    } else if s[0] == '/' {
      TokensLength(s[1..], "");
      var rest := TokensAfter(s[1..], "");
      if word == "" {
        assert TokensAfter(s, word) == rest;
      } else {
        assert ([word] + rest)[1..] == rest;
      }
    } else {
      TokensLength(s[1..], word + [s[0]]);
    }
  }

  lemma {:induction false} JoinPrefixLength(components: seq<string>, n: nat)
    requires n <= |components|
    ensures |Join(components[..n])| <= |Join(components)|
  {
    if n > 0 {
      JoinPrefixLength(components[1..], n - 1);
      assert components[..n][1..] == components[1..][..n - 1];
    }
  }

  lemma {:induction false} FoldLimitedLength(stack: seq<string>, tokens: seq<string>)
    ensures |Join(FoldLimited(stack, tokens))| <= |Join(stack)| + |Join(tokens)|
    decreases tokens
  {
    if tokens != [] && |stack| < MAX_COMPONENTS {
      var t := tokens[0];
      FoldLimitedLength(Resolve(stack, t), tokens[1..]);
      if t == ".." {
        if stack != [] { JoinPrefixLength(stack, |stack| - 1); }
      } else if t != "." {
        JoinSnoc(stack, t);
      }
    }
  }

  lemma CollapseHead(s: string)
    ensures |Collapse(s, false)| <= |s|
    ensures s != "" ==> Collapse(s, false) != "" && Collapse(s, false)[0] == s[0]
  {
    CollapseLength(s, false);
  }

  lemma {:induction false} CollapseLength(s: string, afterSlash: bool)
    ensures |Collapse(s, afterSlash)| <= |s|
  {
    if s != "" { CollapseLength(s[1..], s[0] == '/'); }
  }

  /** A path that starts at the root is never cut when rendered: the result buffer is as large as the input buffer. */
  lemma RenderedFits(base: string, path: string)
    requires Absolute(path) || Absolute(base)
    ensures |Render(Components(base, path))| < PATH_SIZE
  {
    var s := Cut(Joined(base, path), PATH_SIZE - 1);
    var slashed := Slashes(s);
    CollapseHead(slashed);
    var normal := NormalizeSlashes(s);
    assert normal != "" && normal[0] == '/';
    TokensLength(normal, "");
    FoldLimitedLength([], Tokens(normal));
  }

  /** Every accepted path is canonical. */
  lemma AcceptedIsCanonical(base: string, path: string)
    requires Absolute(path) || Absolute(base)
    requires Normalize(base, path).Some?
    ensures CanonicalComponents(Components(base, path))
    ensures Normalize(base, path).value == Render(Components(base, path)) && Canonical(Normalize(base, path).value)
  {
    ComponentsAreWords(base, path);
    RenderedFits(base, path);
  }

  // ----- normalising again changes nothing -----

  lemma {:induction false} FoldLimitedPlain(stack: seq<string>, names: seq<string>)
    requires forall c | c in names :: c != "." && c != ".."
    requires |stack| + |names| <= MAX_COMPONENTS
    ensures FoldLimited(stack, names) == stack + names && Fold(stack, names) == stack + names
            && WithinDepth(stack, names)
    decreases names
  {
    if names != [] {
      assert names[0] in names && forall c | c in names[1..] :: c in names;
      FoldLimitedPlain(stack + [names[0]], names[1..]);
      assert stack + [names[0]] + names[1..] == stack + names;
    }
  }

  lemma {:induction false} JoinHasNoBackslash(components: seq<string>)
    requires forall c | c in components :: Word(c)
    ensures Slashes(Join(components)) == Join(components)
  {
    if components != [] {
      JoinHasNoBackslash(components[1..]);
      assert components[0] in components;
      var c, rest := components[0], Join(components[1..]);
      forall i | 0 <= i < |Join(components)| ensures Slashed(Join(components)[i]) == Join(components)[i] {
        if i > |c| { assert Join(components)[i] == rest[i - 1 - |c|] == Slashes(rest)[i - 1 - |c|]; }
      }
    }
  }

  lemma WordsOfRender(components: seq<string>)
    requires forall c | c in components :: Word(c)
    ensures Words(Render(components)) == components
  {
    TokensOfRender(components);
    JoinHasNoBackslash(components);
    if components == [] { WordsOfRoot(); }
  }

  /** A canonical path is left unchanged whatever the base. */
  lemma CanonicalIsFixed(base: string, components: seq<string>)
    requires CanonicalComponents(components)
    ensures Normalize(base, Render(components)) == Some(Render(components))
            && Components(base, Render(components)) == components
  {
    var path := Render(components);
    assert Absolute(path);
    WordsOfRender(components);
    TokensOfNormalizeSlashes(path);
    FoldLimitedPlain([], components);
    assert Joined(base, path) == path == Cut(path, PATH_SIZE - 1);
    assert Components(base, path) == components;
  }

  lemma NormalizeIsIdempotent(base: string, path: string, again: string)
    requires Absolute(path) || Absolute(base)
    requires Normalize(base, path).Some?
    ensures Normalize(again, Normalize(base, path).value) == Normalize(base, path)
  {
    AcceptedIsCanonical(base, path);
    CanonicalIsFixed(again, Components(base, path));
  }

  // ----- resolving in two steps -----

  /** Resolution never makes a path longer. */
  lemma RenderedNoLonger(base: string, path: string)
    requires Absolute(path) || Absolute(base)
    requires |Joined(base, path)| < PATH_SIZE
    ensures |Render(Components(base, path))| <= |Joined(base, path)|
  {
    var s := Joined(base, path);
    CollapseHead(Slashes(s));
    var normal := NormalizeSlashes(s);
    assert normal != "" && normal[0] == '/';
    TokensLength(normal, "");
    FoldLimitedLength([], Tokens(normal));
  }

  lemma JoinedExtends(base: string, p: string, q: string)
    requires p != ""
    ensures Joined(base, p + "/" + q) == Joined(base, p) + "/" + q
    ensures Words(Joined(base, p + "/" + q)) == Words(Joined(base, p)) + Words(q)
  {
    var joined := Joined(base, p);
    assert Joined(base, p + "/" + q) == joined + "/" + q;
    SlashesJoin(joined, q);
    TokensOfJoin(Slashes(joined), Slashes(q), "");
  }

  lemma FirstStepWithinLimits(base: string, p: string, q: string)
    requires p != "" && WithinLimits(base, p + "/" + q)
    ensures WithinLimits(base, p) && WithinDepth(Components(base, p), Words(q))
    ensures Components(base, p + "/" + q) == Fold(Components(base, p), Words(q))
  {
    JoinedExtends(base, p, q);
    FoldJoin([], Words(Joined(base, p)), Words(q));
    ComponentsAreFold(base, p + "/" + q);
    ComponentsAreFold(base, p);
  }

  /** The words of a relative path after a rendered base. */
  lemma WordsAfterRender(c: seq<string>, q: string)
    requires forall w | w in c :: Word(w)
    requires !Absolute(q)
    ensures Words(Joined(Render(c), q)) == c + Words(q)
    ensures |Joined(Render(c), q)| <= |Render(c)| + 1 + |q|
  {
    WordsOfJoined(Render(c), q);
    WordsOfRender(c);
    if c == [] {
      assert c + Words(q) == Words(q);
    } else {
      assert c[0] in c;
      assert Render(c) != "/";
    }
  }

  lemma SecondStep(base: string, p: string, q: string)
    requires Absolute(base) && p != "" && !Absolute(q)
    requires WithinLimits(base, p + "/" + q) && Normalize(base, p).Some?
    ensures Components(Normalize(base, p).value, q) == Fold(Components(base, p), Words(q))
  {
    var c := Components(base, p);
    FirstStepWithinLimits(base, p, q);
    AcceptedIsCanonical(base, p);
    RenderedNoLonger(base, p);
    JoinedExtends(base, p, q);
    WordsAfterRender(c, q);
    FoldLimitedPlain([], c);
    assert [] + c == c;
    FoldJoin([], c, Words(q));
    ComponentsAreFold(Render(c), q);
  }

  /**
   * Resolving `p` and then the relative `q` from there is resolving `p/q`, within the limits and for a `p` that is not
   * empty.
   */
  lemma ResolveTwice(base: string, p: string, q: string)
    requires Absolute(base) && p != "" && !Absolute(q)
    requires WithinLimits(base, p + "/" + q) && Normalize(base, p).Some?
    ensures Components(Normalize(base, p).value, q) == Components(base, p + "/" + q)
    ensures Normalize(Normalize(base, p).value, q) == Normalize(base, p + "/" + q)
  {
    SecondStep(base, p, q);
    FirstStepWithinLimits(base, p, q);
  }

  lemma PlainName(name: string)
    requires Word(name)
    ensures Words(name) == [name]
  {
    assert Slashes(name) == name && name + "" == name && "" + name == name;
    TokensOfWord(name, "", "");
  }

  /** With an empty `p` it fails from every directory but the root: `/q` is absolute. */
  lemma EmptyFirstStepDiffers(c: seq<string>, q: string)
    requires CanonicalComponents(c) && 0 < |c| < MAX_COMPONENTS
    requires Word(q) && q != "." && q != ".." && |Render(c)| + 1 + |q| < PATH_SIZE
    ensures Normalize(Render(c), "") == Some(Render(c)) && Components(Render(c), q) == c + [q]
    ensures Components(Render(c), "" + "/" + q) == [q] != c + [q]
  {
    TrailingSlash(Render(c));
    CanonicalIsFixed("/", c);
    PlainName(q);
    WordsAfterRender(c, q);
    FoldLimitedPlain([], c + [q]);
    assert [] + (c + [q]) == c + [q];
    ComponentsAreFold(Render(c), q);
    RootName(Render(c), q);
  }

  lemma RootName(base: string, q: string)
    requires Word(q) && q != "." && q != ".." && 1 + |q| < PATH_SIZE
    ensures Components(base, "" + "/" + q) == [q]
  {
    var path := "" + "/" + q;
    assert path == "/" + q == Joined(base, path) == Joined("/", q);
    PlainName(q);
    WordsOfJoined("/", q);
    assert [] + Words(q) == [q];
    FoldLimitedPlain([], [q]);
    assert [] + [q] == [q];
    ComponentsAreFold(base, path);
  }

  /** An empty path names its base. */
  lemma TrailingSlash(base: string)
    requires Absolute(base) && |base| < PATH_SIZE - 1
    ensures Components(base, "") == Components("/", base) && Normalize(base, "") == Normalize("/", base)
  {
    WordsOfJoined(base, "");
    assert Slashes("") == "" && Words("") == [];
    assert Words(base) + [] == Words(base);
    WordsOfRoot();
    TokensOfNormalizeSlashes(Joined(base, ""));
    TokensOfNormalizeSlashes(base);
    assert Cut(Joined(base, ""), PATH_SIZE - 1) == Joined(base, "") && Cut(base, PATH_SIZE - 1) == base;
    assert base == "/" ==> Words(Joined(base, "")) == Words(base);
  }

  // ----- what the words of a path do -----

  /** A name leads into that entry. */
  lemma NameEnters(base: string, p: string, w: string)
    requires p != "" && Word(w) && w != "." && w != ".." && WithinLimits(base, p + "/" + w)
    ensures Components(base, p + "/" + w) == Components(base, p) + [w]
  {
    PlainName(w);
    FirstStepWithinLimits(base, p, w);
    assert [w][1..] == [];
  }

  /** A dot leads nowhere. */
  lemma DotStays(base: string, p: string)
    requires p != "" && WithinLimits(base, p + "/.")
    ensures Components(base, p + "/.") == Components(base, p)
  {
    assert p + "/" + "." == p + "/.";
    PlainName(".");
    FirstStepWithinLimits(base, p, ".");
    assert ["."][1..] == [];
  }

  /** Two dots lead to the parent, and from the root nowhere. */
  lemma DotDotLeaves(base: string, p: string)
    requires p != "" && WithinLimits(base, p + "/..")
    ensures var c := Components(base, p);
      Components(base, p + "/..") == if c == [] then [] else c[..|c| - 1]
  {
    assert p + "/" + ".." == p + "/..";
    PlainName("..");
    FirstStepWithinLimits(base, p, "..");
    assert [".."][1..] == [];
  }

  /** Entering a directory and leaving it again leads nowhere. */
  lemma ThereAndBack(base: string, p: string, w: string)
    requires p != "" && Word(w) && w != "." && w != ".." && WithinLimits(base, p + "/" + w + "/..")
    ensures Components(base, p + "/" + w + "/..") == Components(base, p)
  {
    DotDotLeaves(base, p + "/" + w);
    assert p + "/" + w + "/" + ".." == p + "/" + w + "/..";
    FirstStepWithinLimits(base, p + "/" + w, "..");
    NameEnters(base, p, w);
  }

  lemma {:induction false} FoldLimitedFull(stack: seq<string>, names: seq<string>, more: seq<string>)
    requires forall c | c in names :: c != "." && c != ".."
    requires |stack| + |names| == MAX_COMPONENTS
    ensures FoldLimited(stack, names + more) == stack + names
    decreases names
  {
    if names == [] {
      assert names + more == more && stack + names == stack;
    } else {
      assert names[0] in names && forall c | c in names[1..] :: c in names;
      assert (names + more)[0] == names[0] && (names + more)[1..] == names[1..] + more;
      FoldLimitedFull(stack + [names[0]], names[1..], more);
      assert stack + [names[0]] + names[1..] == stack + names;
    }
  }

  /** Names and then one more word, as the code reads them. */
  lemma FoldLimitedThen(c: seq<string>, word: string)
    requires |c| <= MAX_COMPONENTS && forall w | w in c :: w != "." && w != ".."
    ensures FoldLimited([], c + [word]) == if |c| == MAX_COMPONENTS then c else Resolve(c, word)
  {
    assert [] + c == c;
    if |c| == MAX_COMPONENTS {
      FoldLimitedFull([], c, [word]);
    } else {
      FoldLimitedPlain([], c);
      assert [word][1..] == [];
      FoldJoin([], c, [word]);
      LimitHarmless([], c + [word]);
    }
  }

  /** What is left of `..` behind a directory's name that all but fills the buffer. */
  lemma CutParent(c: seq<string>, s: string)
    requires CanonicalComponents(c) && c != []
    requires s == Render(c) || s == Render(c) + "/" || s == Render(c) + "/."
    ensures FoldLimited([], Tokens(NormalizeSlashes(s))) == c
  {
    TokensOfNormalizeSlashes(s);
    WordsOfRender(c);
    FoldLimitedPlain([], c);
    assert [] + c == c;
    assert s == Render(c) + "/" ==> s == Render(c) + "/" + "";
    assert s == Render(c) + "/." ==> s == Render(c) + "/" + ".";
    if s != Render(c) {
      var rest := if s == Render(c) + "/" then "" else ".";
      SlashesJoin(Render(c), rest);
      TokensOfJoin(Slashes(Render(c)), Slashes(rest), "");
      if rest == "" {
        assert Words("") == [] && c + [] == c by { assert Slashes("") == ""; }
      } else {
        PlainName(".");
        FoldLimitedThen(c, ".");
      }
    }
  }

  lemma {:induction false} JoinFrontValid(c: seq<string>, n: nat)
    requires n <= |c|
    ensures Join(c[..n]) <= Join(c)
  {
    if n > 0 {
      JoinFrontValid(c[1..], n - 1);
      assert c[..n][1..] == c[1..][..n - 1];
    }
  }

  /** The front of a canonical list is canonical. */
  lemma FrontIsCanonical(c: seq<string>)
    requires CanonicalComponents(c) && c != []
    ensures CanonicalComponents(c[..|c| - 1])
  {
    var front := c[..|c| - 1];
    JoinFrontValid(c, |c| - 1);
    if front != [] {
      assert Render(front)[1..] == Render(c)[1..][..|Render(front)| - 1];
    }
  }

  /**
   * `..` leads from a directory to its parent, if the name with `/..` fits the buffer and the component array has room
   * for one more word; otherwise it leads nowhere.
   */
  lemma ParentIff(c: seq<string>)
    requires CanonicalComponents(c) && c != []
    ensures Normalize(Render(c), "..")
            == Some(Render(if |c| < MAX_COMPONENTS && |Render(c)| + 3 < PATH_SIZE then c[..|c| - 1] else c))
    ensures Normalize(Render(c), "..") == Some(Render(c[..|c| - 1]))
            <==> |c| < MAX_COMPONENTS && |Render(c)| + 3 < PATH_SIZE
  {
    assert c[0] in c;
    var front := c[..|c| - 1];
    FrontIsCanonical(c);
    assert |Render(front)| < |Render(c)| by {
      JoinSnoc(front, c[|c| - 1]);
      assert front + [c[|c| - 1]] == c && c[|c| - 1] in c;
    }
    var joined := Joined(Render(c), "..");
    assert Render(c) != "/" && joined == Render(c) + "/" + "..";
    if |joined| < PATH_SIZE {
      WordsAfterRender(c, "..");
      PlainName("..");
      TokensOfNormalizeSlashes(joined);
      FoldLimitedThen(c, "..");
    } else {
      var s := Cut(joined, PATH_SIZE - 1);
      assert s == Render(c) + "/.."[..PATH_SIZE - 1 - |Render(c)|];
      CutParent(c, s);
    }
  }

  lemma ParentComponents(c: seq<string>)
    requires CanonicalComponents(c) && c != [] && |c| < MAX_COMPONENTS && |Render(c)| + 3 < PATH_SIZE
    ensures Components(Render(c), "..") == c[..|c| - 1]
  {
    ParentIff(c);
    FrontIsCanonical(c);
    assert c[0] in c;
    AcceptedIsCanonical(Render(c), "..");
    TokensOfRender(Components(Render(c), ".."));
    TokensOfRender(c[..|c| - 1]);
  }

  /** There is nothing above the root. */
  lemma RootIsItsParent()
    ensures Normalize("/", "..") == Some("/")
  {
    var s := "/" + "..";
    assert Joined("/", "..") == s == Cut(s, PATH_SIZE - 1) == "" + "/" + "..";
    TokensOfNormalizeSlashes(s);
    SlashesJoin("", "..");
    TokensOfJoin("", Slashes(".."), "");
    PlainName("..");
    assert Tokens(NormalizeSlashes(s)) == [".."] && [".."][1..] == [];
  }

  /** A dot names the directory it is read in. */
  lemma DotIsHere(c: seq<string>)
    requires CanonicalComponents(c)
    ensures Normalize(Render(c), ".") == Some(Render(c))
  {
    var joined := Joined(Render(c), ".");
    if c == [] {
      assert joined == "" + "/" + "." == Cut(joined, PATH_SIZE - 1);
      TokensOfNormalizeSlashes(joined);
      SlashesJoin("", ".");
      TokensOfJoin("", Slashes("."), "");
      PlainName(".");
      assert Tokens(NormalizeSlashes(joined)) == ["."] && ["."][1..] == [];
    } else {
      assert c[0] in c;
      assert Render(c) != "/" && joined == Render(c) + "/" + ".";
      var s := Cut(joined, PATH_SIZE - 1);
      assert s == Render(c) + "/."[..|s| - |Render(c)|];
      CutParent(c, s);
    }
  }

  // ----- which paths are accepted -----

  /** A name without two dots in a row and without control characters but tab. */
  predicate CleanName(w: string) {
    (forall i | 0 < i < |w| && w[i] == '.' :: w[i - 1] != '.') && forall c | c in w :: c >= ' ' || c == '\t'
  }

  lemma ValidParts(a: string, b: string)
    requires b == "" || b[0] == '/'
    ensures ValidPath(a + b) <==> CleanName(a) && ValidPath(b)
  {
    var s := a + b;
    forall i | 0 <= i < |s| ensures s[i] == if i < |a| then a[i] else b[i - |a|] {
    }
    if ValidPath(s) {
      forall i | 0 < i < |a| && a[i] == '.' ensures a[i - 1] != '.' { assert s[i - 1] == a[i - 1] && s[i] == a[i]; }
      forall c | c in a ensures c >= ' ' || c == '\t' { assert c in s; }
      forall i | 0 <= i < |b| - 1 ensures !(b[i] == '.' && b[i + 1] == '.') {
        assert s[|a| + i] == b[i] && s[|a| + i + 1] == b[i + 1];
      }
      forall i | 0 <= i < |b| ensures b[i] >= ' ' || b[i] == '\t' { assert s[|a| + i] == b[i]; }
    }
    if CleanName(a) && ValidPath(b) {
      forall i | 0 <= i < |s| - 1 ensures !(s[i] == '.' && s[i + 1] == '.') {
        if i >= |a| { assert s[i] == b[i - |a|] && s[i + 1] == b[i - |a| + 1]; }
      }
      forall i | 0 <= i < |s| ensures s[i] >= ' ' || s[i] == '\t' { assert i < |a| ==> s[i] in a; }
    }
  }

  lemma {:induction false} ValidJoin(c: seq<string>)
    ensures ValidPath(Join(c)) <==> forall w | w in c :: CleanName(w)
  {
    if c != [] {
      var rest := Join(c[1..]);
      ValidJoin(c[1..]);
      ValidParts(c[0], rest);
      ValidParts("", "/" + c[0] + rest);
      assert ValidPath("/" + c[0] + rest) <==> ValidPath(c[0] + rest) by {
        assert ("/" + c[0] + rest)[1..] == c[0] + rest;
        SlashInFront(c[0] + rest);
        assert "/" + (c[0] + rest) == "/" + c[0] + rest;
      }
      assert c == [c[0]] + c[1..];
    }
  }

  lemma SlashInFront(s: string)
    ensures ValidPath("/" + s) <==> ValidPath(s)
  {
    var t := "/" + s;
    assert forall i | 0 <= i < |s| :: t[i + 1] == s[i];
    if ValidPath(t) {
      forall i | 0 <= i < |s| - 1 ensures !(s[i] == '.' && s[i + 1] == '.') {
        assert t[i + 1] == s[i] && t[i + 2] == s[i + 1];
      }
    }
    if ValidPath(s) {
      forall i | 0 <= i < |t| - 1 ensures !(t[i] == '.' && t[i + 1] == '.') {
        if i > 0 { assert t[i] == s[i - 1] && t[i + 1] == s[i]; }
      }
    }
  }

  /** A path is turned down exactly for a component with two dots in a row or a control character. */
  lemma AcceptedIff(base: string, path: string)
    requires Absolute(path) || Absolute(base)
    ensures Normalize(base, path).Some? <==> forall w | w in Components(base, path) :: CleanName(w)
  {
    var c := Components(base, path);
    RenderedFits(base, path);
    ValidJoin(c);
    if c != [] {
      assert Render(c) == "/" + Render(c)[1..];
      SlashInFront(Render(c)[1..]);
    }
  }
}
