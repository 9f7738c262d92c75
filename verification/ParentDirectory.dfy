/**
 * The directory a file lies in (fs_get_parent_directory in server/src/filesys.c), and what it is for the names sessions
 * use.
 */
module ParentDirectory {
  import opened Common
  import opened Paths

  /** A path of which only the root slash, or that of a drive, is left. */
  predicate AtRoot(s: string) {
    s == "/" || (|s| == 3 && s[1] == ':' && (s[2] == '/' || s[2] == '\\'))
  }

  predicate EndsWithSlash(s: string) { s != "" && (s[|s| - 1] == '/' || s[|s| - 1] == '\\') }

  function WithoutTrailing(s: string): string {
    if EndsWithSlash(s) && !AtRoot(s) then WithoutTrailing(s[..|s| - 1]) else s
  }

  /** Where the last slash is. */
  function LastSlash(s: string): (n: int)
    ensures -1 <= n < |s| && (n >= 0 ==> s[n] == '/') && forall k | n < k < |s| :: s[k] != '/'
  {
    if s == "" then -1 else if s[|s| - 1] == '/' then |s| - 1 else LastSlash(s[..|s| - 1])
  }

  function ParentOf(path: string): Option<string> {
    var s := WithoutTrailing(path);
    var n := LastSlash(s);
    if s == "" || n < 0 then None else Some(if n == 0 then "/" else s[..n])
  }

  /** Cuts trailing slashes off in place, but never the root's. */
  method CutTrailing(buffer: array<char>, length: nat) returns (len: nat)
    requires length <= buffer.Length
    modifies buffer
    ensures len <= length && buffer[..len] == WithoutTrailing(old(buffer[..length]))
  {
    ghost var path := buffer[..length];
    len := length;
    while len > 0 && (buffer[len - 1] == '/' || buffer[len - 1] == '\\')
      invariant 0 <= len <= length && buffer[..len] == path[..len]
      invariant WithoutTrailing(path) == WithoutTrailing(path[..len])
    {
      ghost var s := path[..len];
      assert s[|s| - 1] == buffer[len - 1] && s[0] == buffer[0]
             && (len == 3 ==> s[1] == buffer[1] && s[2] == buffer[2]);
      if len == 1 && buffer[0] == '/' { break; }
      if len == 3 && buffer[1] == ':' && (buffer[2] == '/' || buffer[2] == '\\') { break; }
      assert s[..len - 1] == path[..len - 1];
      buffer[len - 1] := '\0';
      len := len - 1;
    }
  }

  /** strrchr for a slash. */
  method FindLastSlash(buffer: array<char>, len: nat) returns (slash: int)
    requires len <= buffer.Length
    ensures slash == LastSlash(buffer[..len])
  {
    ghost var s := buffer[..len];
    slash := len - 1;
    while slash >= 0 && buffer[slash] != '/'
      invariant -1 <= slash < len && LastSlash(s) == LastSlash(s[..slash + 1])
    {
      assert s[..slash + 1][..slash] == s[..slash];
      slash := slash - 1;
    }
  }

  /** Works in place on a copy of the path. */
  method GetParentDirectory(path: string, parentSize: nat) returns (parent: Option<string>)
    ensures parent == if |path| >= parentSize then None else ParentOf(path)
  {
    if parentSize == 0 || |path| >= parentSize { return None; }
    var buffer := new char[parentSize](i => if 0 <= i < |path| then path[i] else '\0');
    assert buffer[..|path|] == path;
    var len := CutTrailing(buffer, |path|);
    if len == 0 { return None; }
    var slash := FindLastSlash(buffer, len);
    if slash < 0 { return None; }
    if slash == 0 { return Some("/"); }
    assert buffer[..len][..slash] == buffer[..slash];
    return Some(buffer[..slash]);
  }

  lemma {:induction false} LastSlashBefore(prefix: string, name: string)
    requires forall i | 0 <= i < |name| :: name[i] != '/'
    ensures LastSlash(prefix + "/" + name) == |prefix|
    decreases name
  {
    var s := prefix + "/" + name;
    if name != "" {
      assert s[..|s| - 1] == prefix + "/" + name[..|name| - 1];
      LastSlashBefore(prefix, name[..|name| - 1]);
    }
  }

  /** The parent of a name in a directory is that directory. */
  lemma ParentOfEntry(directory: string, name: string)
    requires Word(name)
    ensures ParentOf(directory + "/" + name) == Some(if directory == "" then "/" else directory)
  {
    var s := directory + "/" + name;
    assert s[|s| - 1] == name[|name| - 1];
    LastSlashBefore(directory, name);
    assert s[..|directory|] == directory;
  }

  lemma Nested(root: string, directory: string, name: string)
    ensures root + (directory + "/" + name) == root + directory + "/" + name
  {
  }

  /** For a file below the server's root, the parent is the root joined with all components but the last. */
  lemma ParentOfResolved(root: string, front: seq<string>, last: string)
    requires root != "" && Word(last)
    ensures ParentOf(root + Join(front + [last])) == Some(root + Join(front))
  {
    hide ParentOf;
    JoinSnoc(front, last);
    Nested(root, Join(front), last);
    ParentOfEntry(root + Join(front), last);
  }
}
