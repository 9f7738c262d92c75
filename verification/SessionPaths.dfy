/**
 * Access checks, path resolution and the working directory of a session (server/src/session.c, fs_join_path in
 * filesys.c).
 */
module SessionPaths {
  import opened Common
  import opened Paths
  import opened PathResolution
  import opened PathLaws

  datatype Permission = READ | WRITE | DELETE | RENAME | MKDIR | RMDIR | ADMIN

  /** What the checks look at: the server root, the working directory, the user's home and permissions. */
  datatype View = View(root: string, cwd: string, home: string, permissions: set<Permission>, authenticated: bool)

  // ----- the specification -----

  /** The home directory contains the normalised path, by the code's string test. */
  predicate InsideHome(home: string, normalized: string) {
    home == "" || (home <= normalized && (|normalized| == |home| || normalized[|home|] == '/'))
  }

  predicate Allowed(v: View, path: string, required: Permission) {
    v.authenticated &&
    (ADMIN in v.permissions
     || (required in v.permissions
         && Normalize(v.cwd, path).Some? && InsideHome(v.home, Normalize(v.cwd, path).value)))
  }

  function DropSlashes(name: string): string {
    if name != "" && name[0] == '/' then DropSlashes(name[1..]) else name
  }

  function Separator(dir: string): string {
    if dir != "" && dir[|dir| - 1] != '/' then "/" else ""
  }

  function JoinPath(dir: string, name: string): Option<string> {
    var joined := dir + Separator(dir) + DropSlashes(name);
    if |joined| < PATH_SIZE then Some(joined) else None
  }

  /** The absolute file name, which is also the name under which the file is locked. */
  function Resolved(v: View, path: string): Option<string> {
    var normalized := Normalize(v.cwd, path);
    if normalized.None? then None else JoinPath(v.root, normalized.value[1..])
  }

  function DropOne(home: string): string { if home != "" && home[0] == '/' then home[1..] else home }

  /** A login enters the home directory if it exists. */
  function AfterLogin(v: View, home: string, homeExists: bool, permissions: set<Permission>): View {
    var enters := home != "" && JoinPath(v.root, DropOne(home)).Some? && homeExists;
    View(v.root, if enters then home else v.cwd, home, permissions, true)
  }

  // ----- the session -----

  class Session {
    const root: string
    var cwd: string
    var home: string
    var permissions: set<Permission>
    var authenticated: bool

    function Seen(): View
      reads this
    {
      View(root, cwd, home, permissions, authenticated)
    }

    constructor (root: string)
      ensures Seen() == View(root, "/", "", {}, false)
    {
      this.root, cwd, home, permissions, authenticated := root, "/", "", {}, false;
    }

    /** The rest of a successful login. */
    method Authenticated(home: string, permissions: set<Permission>, isDirectory: string -> bool)
      modifies this
      ensures var absoluteHome := JoinPath(root, DropOne(home));
        Seen() == AfterLogin(old(Seen()), home, absoluteHome.Some? && isDirectory(absoluteHome.value), permissions)
    {
      this.home, this.permissions, authenticated := home, permissions, true;
      if home != "" {
        var absoluteHome := JoinPath(root, DropOne(home));
        if absoluteHome.Some? {
          if isDirectory(absoluteHome.value) { cwd := home; }
        }
      }
    }

    method CheckPathAccess(path: string, required: Permission) returns (ok: bool)
      ensures ok <==> Allowed(Seen(), path, required)
    {
      if !authenticated { return false; }
      if ADMIN in permissions { return true; }
      if required !in permissions { return false; }
      var normalized := NormalizeAndValidatePath(cwd, path);
      if normalized.None? { return false; }
      if home == "" { return true; }
      var homeLen := |home|;
      if home <= normalized.value {
        if |normalized.value| == homeLen || normalized.value[homeLen] == '/' { return true; }
      }
      return false;
    }

    method ResolvePath(path: string) returns (absolute: Option<string>)
      ensures absolute == Resolved(Seen(), path)
    {
      var normalized := NormalizeAndValidatePath(cwd, path);
      if normalized.None? { return None; }
      absolute := JoinPath(root, normalized.value[1..]);
    }

    /** CWD and CDUP: the directory must be reachable by name, allowed and there. */
    method ChangeDirectory(path: string, isDirectory: string -> bool) returns (ok: bool)
      requires Absolute(cwd)
      modifies this`cwd
      ensures Absolute(cwd)
      ensures ok <==>
                old(Allowed(Seen(), path, READ)) && old(Resolved(Seen(), path)).Some?
                && isDirectory(old(Resolved(Seen(), path)).value)
      ensures cwd == if ok then Normalize(old(cwd), path).value else old(cwd)
    {
      var newPath := NormalizeAndValidatePath(cwd, path);
      if newPath.None? { return false; }
      NormalizeIsIdempotent(cwd, path, cwd);
      AcceptedIsCanonical(cwd, path);
      var allowed := CheckPathAccess(newPath.value, READ);
      if !allowed { return false; }
      var absolute := JoinPath(root, newPath.value[1..]);
      if absolute.None? { return false; }
      if !isDirectory(absolute.value) { return false; }
      cwd := newPath.value;
      return true;
    }
  }

  // ----- the string test for the home directory is the test on components -----

  /**
   * A rendered list is a prefix of another, up to a slash or the end, exactly when the list is a prefix of the other.
   */
  lemma {:induction false} JoinPrefixIff(h: seq<string>, c: seq<string>)
    requires forall w | w in h :: Word(w)
    requires forall w | w in c :: Word(w)
    ensures Join(h) <= Join(c) && (|Join(c)| == |Join(h)| || Join(c)[|Join(h)|] == '/') <==> h <= c
  {
    if h == [] {
      if c != [] { assert Join(c)[0] == '/'; }
    } else if c == [] {
      assert |Join(h)| > 0;
    } else {
      assert h[0] in h && c[0] in c;
      var x, y, hs, cs := h[0], c[0], Join(h[1..]), Join(c[1..]);
      assert Join(h) == "/" + x + hs && Join(c) == "/" + y + cs;
      JoinStartsWithSlash(h[1..]);
      JoinStartsWithSlash(c[1..]);
      if x == y {
        JoinPrefixIff(h[1..], c[1..]);
        SamePrefix("/" + x, hs, cs);
        assert h <= c <==> h[1..] <= c[1..] by {
          assert h == [x] + h[1..] && c == [x] + c[1..];
        }
      } else {
        assert !(h <= c);
        SameFirstWord(x, hs, y, cs);
      }
    }
  }

  lemma JoinStartsWithSlash(c: seq<string>)
    ensures Join(c) == "" || Join(c)[0] == '/'
  {
  }

  lemma SamePrefix(a: string, x: string, y: string)
    ensures a + x <= a + y <==> x <= y
    ensures a + x <= a + y && |a + x| < |a + y| ==> (a + y)[|a + x|] == y[|x|]
  {
    if x <= y { assert a + y == a + x + y[|x|..]; }
    if a + x <= a + y { assert (a + x)[|a|..] == x && (a + y)[|a|..] == y; }
  }

  /** Where the first slash is, or the end. */
  function FirstSlash(s: string): (n: nat)
    ensures n <= |s|
  {
    if s == "" || s[0] == '/' then 0 else 1 + FirstSlash(s[1..])
  }

  lemma {:induction false} WordEndsAtSlash(w: string, rest: string)
    requires forall i | 0 <= i < |w| :: w[i] != '/'
    requires rest == "" || rest[0] == '/'
    ensures FirstSlash(w + rest) == |w|
    decreases w
  {
    if w == "" {
      assert w + rest == rest;
    } else {
      assert (w + rest)[1..] == w[1..] + rest;
      WordEndsAtSlash(w[1..], rest);
    }
  }

  predicate PrefixAtBoundary(a: string, b: string) {
    a <= b && (|b| == |a| || b[|a|] == '/')
  }

  lemma {:induction false} BoundaryKeepsFirstSlash(a: string, b: string)
    requires PrefixAtBoundary(a, b)
    ensures FirstSlash(a) == FirstSlash(b)
    decreases a
  {
    if a != "" && a[0] != '/' {
      assert a[1..] <= b[1..];
      BoundaryKeepsFirstSlash(a[1..], b[1..]);
    }
  }

  /** A name that ends where a longer one has a slash begins with the same word. */
  lemma SameFirstWord(x: string, hs: string, y: string, cs: string)
    requires Word(x) && Word(y)
    requires (hs == "" || hs[0] == '/') && (cs == "" || cs[0] == '/')
    ensures PrefixAtBoundary("/" + x + hs, "/" + y + cs) ==> x == y
  {
    var a, b := "/" + x + hs, "/" + y + cs;
    assert a[1..] == x + hs && b[1..] == y + cs;
    if PrefixAtBoundary(a, b) {
      assert PrefixAtBoundary(a[1..], b[1..]);
      BoundaryKeepsFirstSlash(a[1..], b[1..]);
      WordEndsAtSlash(x, hs);
      WordEndsAtSlash(y, cs);
      assert (x + hs)[..|x|] == x && (y + cs)[..|x|] == y;
    }
  }

  lemma InsideHomeIff(h: seq<string>, c: seq<string>)
    requires forall w | w in h :: Word(w)
    requires forall w | w in c :: Word(w)
    requires h != []
    ensures InsideHome(Render(h), Render(c)) <==> h <= c
  {
    assert h[0] in h;
    assert |Join(h)| > 1;
    if c != [] { JoinPrefixIff(h, c); }
  }

  // ----- check and use agree -----

  /**
   * Access below a canonical home is granted exactly to administrators, and to users with the permission asked for on
   * accepted paths whose components extend the home's; and to nobody without a login.
   */
  lemma AllowedIff(v: View, path: string, required: Permission, h: seq<string>)
    requires Absolute(v.cwd) && CanonicalComponents(h) && h != [] && v.home == Render(h)
    ensures Allowed(v, path, required) <==>
              v.authenticated
              && (ADMIN in v.permissions
                  || (required in v.permissions && Normalize(v.cwd, path).Some? && h <= Components(v.cwd, path)))
  {
    if Normalize(v.cwd, path).Some? {
      AcceptedIsCanonical(v.cwd, path);
      InsideHomeIff(h, Components(v.cwd, path));
    }
  }

  /** A user without a home may use the permission on every accepted path. */
  lemma NoHomeAllowedIff(v: View, path: string, required: Permission)
    requires Absolute(v.cwd) && v.home == ""
    ensures Allowed(v, path, required) <==>
              v.authenticated
              && (ADMIN in v.permissions
                  || (required in v.permissions && forall w | w in Components(v.cwd, path) :: CleanName(w)))
  {
    AcceptedIff(v.cwd, path);
  }

  /** No component of a rendered path is empty: a slash is followed by one only in front of nothing. */
  lemma {:induction false} JoinHasNoEmptyName(c: seq<string>, k: nat)
    requires forall w | w in c :: Word(w)
    requires k < |Join(c)| && Join(c)[k] == '/'
    ensures k + 1 < |Join(c)| && Join(c)[k + 1] != '/'
  {
    assert c != [] && c[0] in c;
    var rest := Join(c[1..]);
    assert Join(c) == "/" + c[0] + rest;
    if k > 0 {
      assert k > |c[0]|;
      assert Join(c)[k] == rest[k - 1 - |c[0]|];
      JoinHasNoEmptyName(c[1..], k - 1 - |c[0]|);
      assert Join(c)[k + 1] == rest[k - |c[0]|];
    }
  }

  /** A home that ends in a slash admits nothing, unless it is the root, which admits the root alone. */
  lemma SlashHomeAdmitsOnlyRoot(v: View, path: string, required: Permission)
    requires Absolute(v.cwd) && v.home != "" && v.home[|v.home| - 1] == '/'
    ensures Allowed(v, path, required) <==>
              v.authenticated
              && (ADMIN in v.permissions
                  || (required in v.permissions && v.home == "/" && Components(v.cwd, path) == []))
  {
    AcceptedIff(v.cwd, path);
    if Normalize(v.cwd, path).Some? {
      AcceptedIsCanonical(v.cwd, path);
      var c := Components(v.cwd, path);
      if c != [] && InsideHome(v.home, Render(c)) {
        assert Render(c)[|v.home| - 1] == '/';
        JoinHasNoEmptyName(c, |v.home| - 1);
      }
    }
  }

  /** With the root as home the code's test admits the root alone. */
  lemma RootHomeAdmitsOnlyRoot(v: View, path: string, required: Permission)
    requires Absolute(v.cwd) && v.home == "/"
    ensures Allowed(v, path, required) <==>
              v.authenticated
              && (ADMIN in v.permissions || (required in v.permissions && Components(v.cwd, path) == []))
  {
    SlashHomeAdmitsOnlyRoot(v, path, required);
  }

  lemma NameAfterRoot(c: seq<string>)
    requires forall w | w in c :: Word(w)
    ensures DropSlashes(Render(c)[1..]) == Render(c)[1..]
  {
    if c != [] {
      assert c[0] in c;
      assert Render(c)[1..] == c[0] + Join(c[1..]);
    }
  }

  /**
   * The path that was checked is the path that is used: the root joined with the same components, if the name is not
   * too long.
   */
  lemma UseAgreesWithCheck(v: View, path: string)
    requires Absolute(v.cwd) && Normalize(v.cwd, path).Some?
    ensures var name := v.root + Separator(v.root) + Render(Components(v.cwd, path))[1..];
      Resolved(v, path) == if |name| < PATH_SIZE then Some(name) else None
  {
    AcceptedIsCanonical(v.cwd, path);
    NameAfterRoot(Components(v.cwd, path));
  }

  lemma RenderInjective(c: seq<string>, d: seq<string>)
    requires forall w | w in c :: Word(w)
    requires forall w | w in d :: Word(w)
    requires Render(c)[1..] == Render(d)[1..]
    ensures c == d
  {
    assert Render(c) == "/" + Render(c)[1..] && Render(d) == "/" + Render(d)[1..];
    TokensOfRender(c);
    TokensOfRender(d);
  }

  lemma SameSuffix(prefix: string, a: string, b: string)
    requires prefix + a == prefix + b
    ensures a == b
  {
    assert (prefix + a)[|prefix|..] == a && (prefix + b)[|prefix|..] == b;
  }

  /**
   * For one root, two paths have the same absolute name, hence the same lock, exactly when their components are the
   * same.
   */
  lemma SameNameIffSameComponents(v: View, w: View, p: string, q: string)
    requires v.root == w.root && Absolute(v.cwd) && Absolute(w.cwd)
    ensures Resolved(v, p).Some? && Resolved(w, q).Some? ==>
              (Resolved(v, p) == Resolved(w, q) <==> Components(v.cwd, p) == Components(w.cwd, q))
  {
    if Resolved(v, p).None? || Resolved(w, q).None? { return; }
    UseAgreesWithCheck(v, p);
    UseAgreesWithCheck(w, q);
    ComponentsAreWords(v.cwd, p);
    ComponentsAreWords(w.cwd, q);
    var c, d := Components(v.cwd, p), Components(w.cwd, q);
    if Resolved(v, p) == Resolved(w, q) {
      SameSuffix(v.root + Separator(v.root), Render(c)[1..], Render(d)[1..]);
      RenderInjective(c, d);
    }
  }

  // ----- the working directory over a whole session -----

  /** One CWD, with the file system's answer. */
  function AfterCwd(v: View, path: string, isDirectory: bool): View {
    if Allowed(v, path, READ) && Resolved(v, path).Some? && isDirectory then v.(cwd := Normalize(v.cwd, path).value)
    else v
  }

  function AfterCwds(v: View, moves: seq<(string, bool)>): View
    decreases moves
  {
    if moves == [] then v else AfterCwds(AfterCwd(v, moves[0].0, moves[0].1), moves[1..])
  }

  /** Whatever directories a user asks for, the working directory stays canonical and below the home it started in. */
  lemma {:induction false} StaysInHome(v: View, moves: seq<(string, bool)>, h: seq<string>)
    requires ADMIN !in v.permissions && CanonicalComponents(h) && h != [] && v.home == Render(h)
    requires exists c :: CanonicalComponents(c) && v.cwd == Render(c) && h <= c
    ensures exists c :: CanonicalComponents(c) && AfterCwds(v, moves).cwd == Render(c) && h <= c
    decreases moves
  {
    if moves != [] {
      var path := moves[0].0;
      assert Absolute(v.cwd);
      AllowedIff(v, path, READ, h);
      var next := AfterCwd(v, path, moves[0].1);
      if next != v {
        AcceptedIsCanonical(v.cwd, path);
        assert CanonicalComponents(Components(v.cwd, path)) && next.cwd == Render(Components(v.cwd, path));
      }
      StaysInHome(next, moves[1..], h);
    }
  }

  /** Without the right to read, or without a login, a user stays where it is. */
  lemma {:induction false} StaysPutWithoutRead(v: View, moves: seq<(string, bool)>)
    requires !v.authenticated || (ADMIN !in v.permissions && READ !in v.permissions)
    ensures AfterCwds(v, moves) == v
    decreases moves
  {
    if moves != [] {
      assert AfterCwd(v, moves[0].0, moves[0].1) == v;
      StaysPutWithoutRead(v, moves[1..]);
    }
  }

  /** The directory a login looks for is the one the home's name stands for. */
  lemma LoginLooksForHome(v: View, h: seq<string>)
    requires CanonicalComponents(h)
    ensures JoinPath(v.root, DropOne(Render(h))) == Resolved(v, Render(h))
  {
    CanonicalIsFixed(v.cwd, h);
  }

  /**
   * From the login on: if the home is there and its name not too long, an ordinary user is in it at once and below it
   * ever after; otherwise it stays in the directory of the login until it asks for one below the home.
   */
  lemma LoginStaysInHome(v: View, h: seq<string>, homeExists: bool, permissions: set<Permission>,
                         moves: seq<(string, bool)>)
    requires CanonicalComponents(h) && h != [] && ADMIN !in permissions
    ensures var entered := AfterLogin(v, Render(h), homeExists, permissions);
      var at := AfterCwds(entered, moves);
      && entered.authenticated && entered.permissions == permissions && entered.home == Render(h)
      && entered.root == v.root
      && (if homeExists && Resolved(v, Render(h)).Some? then
            entered.cwd == Render(h) && exists c :: CanonicalComponents(c) && at.cwd == Render(c) && h <= c
          else
            entered.cwd == v.cwd)
  {
    LoginLooksForHome(v, h);
    assert Render(h) != "" by { assert h[0] in h; }
    if homeExists && Resolved(v, Render(h)).Some? {
      assert h <= h;
      StaysInHome(AfterLogin(v, Render(h), homeExists, permissions), moves, h);
    }
  }
}
