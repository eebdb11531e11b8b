/** `nameFromPath` (inventory.cpp): the display name of an inventory
    object is the last segment of its D-Bus path, except that a CPU core
    ("core..." segment) keeps its parent segment as a prefix. */
module PathNames {
  import opened Wrappers

  /** The last '/' among the first `end` characters of `s`. With
      `end == |s|` this is `s.find_last_of('/')`; with `end == pos + 1` it is
      `s.find_last_of('/', pos)`. */
  function LastSlashBefore(s: string, end: nat): (r: Option<nat>)
    requires end <= |s|
    ensures r.Some? ==> r.value < end && s[r.value] == '/'
    ensures forall k :: (if r.Some? then r.value < k else 0 <= k) && k < end ==> s[k] != '/'
  {
    if end == 0 then None
    else if s[end - 1] == '/' then Some(end - 1)
    else LastSlashBefore(s, end - 1)
  }

  /** `path.compare(pos, 4, "core") == 0`: the substring of (at most) four
      characters at `pos` is exactly "core". */
  predicate HasCorePrefix(s: string) {
    |s| >= 4 && s[0] == 'c' && s[1] == 'o' && s[2] == 'r' && s[3] == 'e'
  }

  predicate NoSlash(s: string) {
    forall k :: 0 <= k < |s| ==> s[k] != '/'
  }

  /** The display name of the object at `path`. */
  function NameFromPath(path: string): (name: string)
    ensures |name| <= |path| && name == path[|path| - |name|..]
  {
    var lastSlash := LastSlashBefore(path, |path|);
    var cut :=
      if lastSlash.Some? && lastSlash.value != 0 && HasCorePrefix(path[lastSlash.value + 1..])
      then LastSlashBefore(path, lastSlash.value)
      else lastSlash;
    if cut.None? then path else path[cut.value + 1..]
  }

  /** The last '/' before `end` is at `i` when none follows it. */
  lemma {:induction false} LastSlashAt(s: string, end: nat, i: nat)
    requires i < end <= |s| && s[i] == '/'
    requires forall k :: i < k < end ==> s[k] != '/'
    ensures LastSlashBefore(s, end) == Some(i)
    decreases end
  {
    if end - 1 != i {
      LastSlashAt(s, end - 1, i);
    }
  }

  /** There is no '/' before `end` when none of those characters is one. */
  lemma {:induction false} NoSlashBefore(s: string, end: nat)
    requires end <= |s|
    requires forall k :: 0 <= k < end ==> s[k] != '/'
    ensures LastSlashBefore(s, end) == None
    decreases end
  {
    if end != 0 {
      NoSlashBefore(s, end - 1);
    }
  }

  /** A slice without '/' said of the indices of the whole string. */
  lemma NoSlashIn(s: string, from: nat, to: nat)
    requires from <= to <= |s| && NoSlash(s[from..to])
    ensures forall k :: from <= k < to ==> s[k] != '/'
  {
    forall k | from <= k < to
      ensures s[k] != '/'
    {
      assert s[from..to][k - from] == s[k];
    }
  }

  // The three outcomes of `nameFromPath`, given where its slashes are.

  lemma NameAfterLastSlash(path: string, i: nat)
    requires i < |path| && LastSlashBefore(path, |path|) == Some(i)
    requires i == 0 || !HasCorePrefix(path[i + 1..])
    ensures NameFromPath(path) == path[i + 1..]
  {
  }

  lemma NameAfterParentSlash(path: string, i: nat, j: nat)
    requires j < i < |path| && LastSlashBefore(path, |path|) == Some(i)
    requires HasCorePrefix(path[i + 1..]) && LastSlashBefore(path, i) == Some(j)
    ensures NameFromPath(path) == path[j + 1..]
  {
    var lastSlash := LastSlashBefore(path, |path|);
    assert lastSlash.value != 0 && HasCorePrefix(path[lastSlash.value + 1..]);
    assert LastSlashBefore(path, lastSlash.value) == Some(j);
  }

  lemma NameWithoutParentSlash(path: string, i: nat)
    requires 0 < i < |path| && LastSlashBefore(path, |path|) == Some(i)
    requires HasCorePrefix(path[i + 1..]) && LastSlashBefore(path, i) == None
    ensures NameFromPath(path) == path
  {
  }

  lemma NoSlashFrom(s: string, from: nat)
    requires from <= |s| && NoSlash(s[from..])
    ensures forall k :: from <= k < |s| ==> s[k] != '/'
  {
    forall k | from <= k < |s|
      ensures s[k] != '/'
    {
      assert s[from..][k - from] == s[k];
    }
  }

  /** A path without '/' is its own name. */
  lemma NameOfSlashlessPath(path: string)
    requires NoSlash(path)
    ensures NameFromPath(path) == path
  {
    NoSlashBefore(path, |path|);
  }

  /** The name is the last segment when that segment does not start with
      "core", or when its '/' is the first character of the path. */
  lemma NameOfLastSegment(path: string, i: nat)
    requires i < |path| && path[i] == '/' && NoSlash(path[i + 1..])
    requires i == 0 || !HasCorePrefix(path[i + 1..])
    ensures NameFromPath(path) == path[i + 1..]
  {
    assert LastSlashBefore(path, |path|) == Some(i) by {
      NoSlashFrom(path, i + 1);
      LastSlashAt(path, |path|, i);
    }
    NameAfterLastSlash(path, i);
  }

  /** A path ending in '/' has the empty name. */
  lemma NameOfTrailingSlash(path: string)
    requires path != [] && path[|path| - 1] == '/'
    ensures NameFromPath(path) == ""
  {
    NameOfLastSegment(path, |path| - 1);
  }

  /** A last segment starting with "core", behind a '/' that is not the
      first character, keeps the parent segment. */
  lemma NameOfCoreSegment(path: string, j: nat, i: nat)
    requires j < i < |path| && path[j] == '/' && path[i] == '/'
    requires NoSlash(path[j + 1..i]) && NoSlash(path[i + 1..])
    requires HasCorePrefix(path[i + 1..])
    ensures NameFromPath(path) == path[j + 1..]
  {
    assert LastSlashBefore(path, |path|) == Some(i) by {
      NoSlashFrom(path, i + 1);
      LastSlashAt(path, |path|, i);
    }
    assert LastSlashBefore(path, i) == Some(j) by {
      NoSlashIn(path, j + 1, i);
      LastSlashAt(path, i, j);
    }
    NameAfterParentSlash(path, i, j);
  }

  /** ... and is the whole path when no '/' precedes that one. */
  lemma NameOfTopCoreSegment(path: string, i: nat)
    requires 0 < i < |path| && path[i] == '/'
    requires NoSlash(path[..i]) && NoSlash(path[i + 1..])
    requires HasCorePrefix(path[i + 1..])
    ensures NameFromPath(path) == path
  {
    assert LastSlashBefore(path, |path|) == Some(i) by {
      NoSlashFrom(path, i + 1);
      LastSlashAt(path, |path|, i);
    }
    assert LastSlashBefore(path, i) == None by {
      NoSlashIn(path, 0, i);
      NoSlashBefore(path, i);
    }
    NameWithoutParentSlash(path, i);
  }

  /** An object directly under a '/'-terminated prefix is named by its segment. */
  lemma NameUnderPrefix(prefix: string, leaf: string)
    requires prefix != [] && prefix[|prefix| - 1] == '/'
    requires NoSlash(leaf) && !HasCorePrefix(leaf)
    ensures NameFromPath(prefix + leaf) == leaf
  {
    var path := prefix + leaf;
    assert path[|prefix|..] == leaf;
    NameOfLastSegment(path, |prefix| - 1);
  }

  /** A core under a parent segment, `name` being "parent/core...", is
      named by both segments. */
  lemma NameUnderPrefixOfCore(prefix: string, name: string, i: nat)
    requires prefix != [] && prefix[|prefix| - 1] == '/'
    requires 0 < i < |name| && name[i] == '/'
    requires NoSlash(name[..i]) && NoSlash(name[i + 1..]) && HasCorePrefix(name[i + 1..])
    ensures NameFromPath(prefix + name) == name
  {
    var path := prefix + name;
    var n := |prefix| + i;
    assert path[n + 1..] == name[i + 1..] && path[|prefix|..n] == name[..i] && path[|prefix|..] == name;
    NameOfCoreSegment(path, |prefix| - 1, n);
  }
}
