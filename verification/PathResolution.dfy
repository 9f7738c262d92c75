/**
 * normalize_and_validate_path (server/src/session.c): what it returns, and the laws that make its result a name for a
 * place.
 */
module PathResolution {
  import opened Common
  import opened Paths

  // ----- the specification -----

  /** No `..` anywhere, and no control character but tab. */
  predicate ValidPath(s: string) {
    && (forall i | 0 <= i < |s| - 1 :: !(s[i] == '.' && s[i + 1] == '.'))
    && (forall i | 0 <= i < |s| :: s[i] >= ' ' || s[i] == '\t')
  }

  predicate Absolute(path: string) { path != "" && path[0] == '/' }

  /** The path before it is cut to the buffer: absolute as it is, relative after its base. */
  function Joined(base: string, path: string): string {
    if Absolute(path) then path else if base == "/" then "/" + path else base + "/" + path
  }

  function Components(base: string, path: string): seq<string> {
    FoldLimited([], Tokens(NormalizeSlashes(Cut(Joined(base, path), PATH_SIZE - 1))))
  }

  function Normalize(base: string, path: string): Option<string> {
    var result := Cut(Render(Components(base, path)), PATH_SIZE - 1);
    if ValidPath(result[1..]) then Some(result) else None
  }

  // ----- the code -----

  lemma TokensFrom(s: string, start: nat, end: nat)
    requires start < end <= |s|
    requires forall k | start <= k < end :: s[k] != '/'
    requires end == |s| || s[end] == '/'
    ensures Tokens(s[start..]) == [s[start..end]] + Tokens(s[end..])
  {
    var w, rest := s[start..end], s[end..];
    assert s[start..] == w + rest && "" + w == w;
    TokensOfWord(w, rest, "");
    if rest != "" {
      assert Tokens(rest) == [] + TokensAfter(rest[1..], "");
    }
  }

  lemma TokensSkip(s: string, i: nat)
    requires i < |s| && s[i] == '/'
    ensures Tokens(s[i..]) == Tokens(s[i + 1..])
  {
    assert s[i..][1..] == s[i + 1..];
    assert Tokens(s[i..]) == [] + TokensAfter(s[i + 1..], "");
  }

  lemma FoldLimitedStep(stack: seq<string>, token: string, rest: seq<string>)
    requires |stack| < MAX_COMPONENTS
    ensures FoldLimited(stack, [token] + rest) == FoldLimited(Resolve(stack, token), rest)
  {
    assert ([token] + rest)[1..] == rest;
  }

  lemma FoldLimitedDone(stack: seq<string>, tokens: seq<string>)
    requires tokens == [] || |stack| >= MAX_COMPONENTS
    ensures FoldLimited(stack, tokens) == stack
  {
  }

  /** Splits at slashes and keeps the component stack in an array of fixed size. */
  method ResolveComponents(temp: string) returns (components: array<string>, count: nat)
    ensures fresh(components) && count <= components.Length == MAX_COMPONENTS
    ensures components[..count] == FoldLimited([], Tokens(temp))
  {
    hide FoldLimited;
    components, count := new string[MAX_COMPONENTS](_ => ""), 0;
    var i := 0;
    assert temp[0..] == temp && components[..0] == [];
    while true
      invariant 0 <= i <= |temp| && 0 <= count <= MAX_COMPONENTS
      invariant FoldLimited(components[..count], Tokens(temp[i..])) == FoldLimited([], Tokens(temp))
      decreases |temp| - i
    {
      while i < |temp| && temp[i] == '/'
        invariant 0 <= i <= |temp|
        invariant FoldLimited(components[..count], Tokens(temp[i..])) == FoldLimited([], Tokens(temp))
      {
        TokensSkip(temp, i);
        i := i + 1;
      }
      if i == |temp| || count >= MAX_COMPONENTS {
        assert i == |temp| ==> Tokens(temp[i..]) == [];
        FoldLimitedDone(components[..count], Tokens(temp[i..]));
        break;
      }
      var start := i;
      while i < |temp| && temp[i] != '/'
        invariant start <= i <= |temp|
        invariant forall k | start <= k < i :: temp[k] != '/'
      {
        i := i + 1;
      }
      TokensFrom(temp, start, i);
      var token := temp[start..i];
      ghost var stack := components[..count];
      FoldLimitedStep(stack, token, Tokens(temp[i..]));
      if token == "." {
      } else if token == ".." {
        if count > 0 {
          count := count - 1;
          assert components[..count] == stack[..count];
        }
      } else {
        components[count] := token;
        count := count + 1;
        assert components[..count] == stack + [token];
      }
    }
  }

  /** strncat: appends as much as fits into `size` characters with the terminator. */
  function Append(result: string, s: string, size: nat): string
    requires |result| < size
  {
    result + Cut(s, size - |result| - 1)
  }

  lemma AppendCut(whole: string, s: string, size: nat)
    requires size > 0
    ensures Append(Cut(whole, size - 1), s, size) == Cut(whole + s, size - 1)
  {
  }

  method BuildPath(components: array<string>, count: nat, size: nat) returns (result: string)
    requires count <= components.Length && size > 1
    ensures result == Cut(Render(components[..count]), size - 1)
  {
    if count == 0 { return "/"; }
    result := "";
    var i := 0;
    while i < count
      invariant 0 <= i <= count
      invariant result == Cut(Join(components[..i]), size - 1)
    {
      ghost var whole := Join(components[..i]);
      AppendCut(whole, "/", size);
      AppendCut(whole + "/", components[i], size);
      JoinSnoc(components[..i], components[i]);
      assert components[..i + 1] == components[..i] + [components[i]];
      result := Append(result, "/", size);
      result := Append(result, components[i], size);
      i := i + 1;
    }
  }

  method NormalizeAndValidatePath(base: string, path: string) returns (result: Option<string>)
    ensures result == Normalize(base, path)
  {
    var joined := Cut(Joined(base, path), PATH_SIZE - 1);
    var temp := new char[PATH_SIZE](i => if 0 <= i < |joined| then joined[i] else '\0');
    assert temp[..|joined|] == joined;
    var ok, len := NormalizePath(temp, |joined|, PATH_SIZE);
    if !ok { return None; }
    var components, count := ResolveComponents(temp[..len]);
    var built := BuildPath(components, count, PATH_SIZE);
    result := if ValidPath(built[1..]) then Some(built) else None;
  }
}
