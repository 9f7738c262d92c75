/**
 * Virtual path resolution: the slash normaliser, the tokeniser with its component stack, and what they compute
 * (protocol.c, session.c).
 */
module Paths {
  const MAX_COMPONENTS: nat := 256

  // ----- slashes -----

  function Slashed(c: char): char { if c == '\\' then '/' else c }

  function Slashes(s: string): string { seq(|s|, i requires 0 <= i < |s| => Slashed(s[i])) }

  /** Leaves one slash of every run of slashes. */
  function Collapse(s: string, afterSlash: bool): string {
    if s == "" then ""
    else if s[0] == '/' then (if afterSlash then "" else "/") + Collapse(s[1..], true)
    else [s[0]] + Collapse(s[1..], false)
  }

  function StripSlash(s: string): string {
    if |s| > 1 && s[|s| - 1] == '/' then s[..|s| - 1] else s
  }

  function NormalizeSlashes(s: string): string { StripSlash(Collapse(Slashes(s), false)) }

  lemma {:induction false} CollapseSnoc(s: string, afterSlash: bool, c: char)
    ensures Collapse(s + [c], afterSlash)
            == Collapse(s, afterSlash)
              + (if c == '/' && (if s == "" then afterSlash else s[|s| - 1] == '/') then "" else [c])
  {
    if s == "" {
      assert s + [c] == [c];
    } else {
      CollapseSnoc(s[1..], s[0] == '/', c);
      assert (s + [c])[1..] == s[1..] + [c];
    }
  }

  /** The in-place compaction of the first `len` characters. */
  method CollapseInPlace(path: array<char>, len: nat) returns (dst: nat)
    requires len <= path.Length
    modifies path
    ensures dst <= len && path[..dst] == Collapse(old(path[..len]), false)
  {
    ghost var source, kept := path[..len], "";
    var src, lastWasSlash := 0, false;
    dst := 0;
    while src < len
      invariant 0 <= dst <= src <= len
      invariant kept == path[..dst] == Collapse(source[..src], false)
      invariant lastWasSlash == (src > 0 && source[src - 1] == '/')
      invariant forall k | src <= k < len :: path[k] == source[k]
    {
      CollapseSnoc(source[..src], false, source[src]);
      assert source[..src + 1] == source[..src] + [source[src]];
      if path[src] == '/' {
        if !lastWasSlash {
          path[dst] := path[src];
          dst := dst + 1;
          lastWasSlash := true;
          kept := kept + ['/'];
        }
      } else {
        path[dst] := path[src];
        dst := dst + 1;
        lastWasSlash := false;
        kept := kept + [source[src]];
      }
      src := src + 1;
    }
    assert source[..len] == source;
  }

  /** Normalises the slashes of a path of length `len` held in `path`. */
  method NormalizePath(path: array<char>, len: nat, maxLength: nat) returns (ok: bool, newLen: nat)
    requires len <= path.Length
    modifies path
    ensures ok <==> len < maxLength
    ensures ok ==> newLen <= len && path[..newLen] == NormalizeSlashes(old(path[..len]))
    ensures !ok ==> path[..] == old(path[..])
  {
    if len >= maxLength { return false, 0; }
    ghost var source := path[..len];
    var i := 0;
    while i < len
      invariant 0 <= i <= len
      invariant forall k | 0 <= k < len :: path[k] == if k < i then Slashed(source[k]) else source[k]
    {
      if path[i] == '\\' { path[i] := '/'; }
      i := i + 1;
    }
    assert path[..len] == Slashes(source);
    newLen := CollapseInPlace(path, len);
    if newLen > 1 && path[newLen - 1] == '/' { newLen := newLen - 1; }
    ok := true;
  }

  // ----- tokens -----

  /** The words between slashes; `word` is the part of the current word already read. */
  function TokensAfter(s: string, word: string): seq<string> {
    if s == "" then (if word == "" then [] else [word])
    else if s[0] == '/' then (if word == "" then [] else [word]) + TokensAfter(s[1..], "")
    else TokensAfter(s[1..], word + [s[0]])
  }

  function Tokens(s: string): seq<string> { TokensAfter(s, "") }

  lemma {:induction false} TokensOfCollapse(s: string, afterSlash: bool, word: string)
    requires afterSlash ==> word == ""
    ensures TokensAfter(Collapse(s, afterSlash), word) == TokensAfter(s, word)
  {
    if s == "" {
    } else if s[0] == '/' {
      TokensOfCollapse(s[1..], true, "");
      var rest := Collapse(s[1..], true);
      if afterSlash {
        assert Collapse(s, true) == rest && TokensAfter(s, "") == TokensAfter(s[1..], "");
      } else {
        assert Collapse(s, false)[1..] == rest;
      }
    } else {
      TokensOfCollapse(s[1..], false, word + [s[0]]);
      assert Collapse(s, afterSlash)[1..] == Collapse(s[1..], false);
    }
  }

  lemma {:induction false} TokensOfJoin(a: string, b: string, word: string)
    ensures TokensAfter(a + "/" + b, word) == TokensAfter(a, word) + Tokens(b)
  {
    var s := a + "/" + b;
    if a == "" {
      assert s == "/" + b && s[1..] == b;
    } else {
      assert s[0] == a[0] && s[1..] == a[1..] + "/" + b;
      if a[0] == '/' {
        TokensOfJoin(a[1..], b, "");
      } else {
        TokensOfJoin(a[1..], b, word + [a[0]]);
      }
    }
  }

  lemma TokensOfStripSlash(s: string)
    ensures Tokens(StripSlash(s)) == Tokens(s)
  {
    if |s| > 1 && s[|s| - 1] == '/' {
      TokensOfJoin(s[..|s| - 1], "", "");
      assert s == s[..|s| - 1] + "/" + "";
    }
  }

  /** Normalising the slashes does not change the words. */
  lemma TokensOfNormalizeSlashes(s: string)
    ensures Tokens(NormalizeSlashes(s)) == Tokens(Slashes(s))
  {
    TokensOfStripSlash(Collapse(Slashes(s), false));
    TokensOfCollapse(Slashes(s), false, "");
  }

  /** A name that can stand between two slashes. */
  ghost predicate Word(w: string) {
    w != "" && forall i | 0 <= i < |w| :: w[i] != '/' && w[i] != '\\'
  }

  lemma {:induction false} TokensAreWords(s: string, word: string)
    requires forall i | 0 <= i < |s| :: s[i] != '\\'
    requires word == "" || Word(word)
    ensures forall t | t in TokensAfter(s, word) :: Word(t)
  {
    if s != "" {
      TokensAreWords(s[1..], if s[0] == '/' then "" else word + [s[0]]);
    }
  }

  // ----- the component stack -----

  function Resolve(stack: seq<string>, token: string): seq<string> {
    if token == "." then stack
    else if token == ".." then (if stack == [] then [] else stack[..|stack| - 1])
    else stack + [token]
  }

  /** The meaning of a path: its words resolved one after another, never above the root. */
  function Fold(stack: seq<string>, tokens: seq<string>): seq<string>
    decreases tokens
  {
    if tokens == [] then stack else Fold(Resolve(stack, tokens[0]), tokens[1..])
  }

  /** What the code computes: it stops reading words once the component array is full. */
  function FoldLimited(stack: seq<string>, tokens: seq<string>): seq<string>
    decreases tokens
  {
    if tokens == [] || |stack| >= MAX_COMPONENTS then stack else FoldLimited(Resolve(stack, tokens[0]), tokens[1..])
  }

  /** The array is never full while words remain. */
  predicate WithinDepth(stack: seq<string>, tokens: seq<string>)
    decreases tokens
  {
    tokens == [] || (|stack| < MAX_COMPONENTS && WithinDepth(Resolve(stack, tokens[0]), tokens[1..]))
  }

  lemma {:induction false} LimitHarmless(stack: seq<string>, tokens: seq<string>)
    requires WithinDepth(stack, tokens)
    ensures FoldLimited(stack, tokens) == Fold(stack, tokens)
    decreases tokens
  {
    if tokens != [] { LimitHarmless(Resolve(stack, tokens[0]), tokens[1..]); }
  }

  lemma {:induction false} FoldJoin(stack: seq<string>, a: seq<string>, b: seq<string>)
    ensures Fold(stack, a + b) == Fold(Fold(stack, a), b)
    ensures WithinDepth(stack, a + b) <==>
              (b != [] ==> WithinDepth(stack, a) && WithinDepth(Fold(stack, a), b)) && WithinDepth(stack, a)
    decreases a
  {
    if a == [] {
      assert a + b == b;
    } else {
      assert (a + b)[0] == a[0] && (a + b)[1..] == a[1..] + b;
      FoldJoin(Resolve(stack, a[0]), a[1..], b);
    }
  }

  // ----- rendering -----

  function Join(components: seq<string>): string {
    if components == [] then "" else "/" + components[0] + Join(components[1..])
  }

  function Render(components: seq<string>): string {
    if components == [] then "/" else Join(components)
  }

  lemma {:induction false} JoinSnoc(components: seq<string>, last: string)
    ensures Join(components + [last]) == Join(components) + "/" + last
  {
    if components == [] {
      assert components + [last] == [last];
      assert Join([last]) == "/" + last + Join([]);
    } else {
      JoinSnoc(components[1..], last);
      assert (components + [last])[1..] == components[1..] + [last];
    }
  }

  lemma {:induction false} TokensOfWord(w: string, rest: string, word: string)
    requires forall i | 0 <= i < |w| :: w[i] != '/'
    ensures TokensAfter(w + rest, word) == TokensAfter(rest, word + w)
  {
    if w == "" {
      assert w + rest == rest && word + w == word;
    } else {
      assert (w + rest)[0] == w[0] && (w + rest)[1..] == w[1..] + rest;
      TokensOfWord(w[1..], rest, word + [w[0]]);
      assert word + [w[0]] + w[1..] == word + w;
    }
  }

  /** A slash, a word and a path that ends here or begins with a slash. */
  lemma TokensOfEntry(word: string, rest: string)
    requires Word(word) && (rest == "" || rest[0] == '/')
    ensures Tokens("/" + word + rest) == [word] + Tokens(rest)
  {
    assert ("/" + word + rest)[1..] == word + rest;
    TokensOfWord(word, rest, "");
    assert "" + word == word;
    if rest != "" { assert Tokens(rest) == [] + TokensAfter(rest[1..], ""); }
  }

  /** Reading a rendered path gives its components back. */
  lemma {:induction false} TokensOfRender(components: seq<string>)
    requires forall c | c in components :: Word(c)
    ensures Tokens(Join(components)) == components == Tokens(Render(components))
  {
    if components == [] {
      assert Tokens("/") == [] + TokensAfter("", "");
    } else {
      hide TokensAfter;
      assert components[0] in components;
      TokensOfRender(components[1..]);
      TokensOfEntry(components[0], Join(components[1..]));
    }
  }
}
