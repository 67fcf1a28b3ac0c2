/** Checks on the paths a job names for its files: LegalPathInSandbox
    refuses paths that could leave the sandbox, and outputFileIsSpooled
    tells whether an output file already lives in the spool directory.
    Paths use the Unix delimiter '/'. */
module SandboxPath {
  import opened Text

  const DirDelim: char := '/'

  /** fullpath: an absolute path. */
  predicate IsAbsolute(path: string)
  {
    path != [] && path[0] == DirDelim
  }

  /** A ".." component starts at index i: two dots bounded on each side
      by a delimiter or an end of the path. */
  predicate DotDotAt(path: string, i: int)
  {
    0 <= i && i + 2 <= |path| && path[i] == '.' && path[i + 1] == '.'
    && (i == 0 || path[i - 1] == DirDelim)
    && (i + 2 == |path| || path[i + 2] == DirDelim)
  }

  predicate HasDotDotComponent(path: string)
  {
    exists i :: 0 <= i < |path| && DotDotAt(path, i)
  }

  /** LegalPathInSandbox: absolute paths are refused; otherwise the path
      is split at its last delimiter again and again (filename_split),
      and any final component ".." refuses it. */
  method LegalPathInSandbox(path: string) returns (legal: bool)
    ensures legal <==> !IsAbsolute(path) && !HasDotDotComponent(path)
  {
    if IsAbsolute(path) {
      return false;
    }
    legal := true;
    var k := |path|;
    var more := true;
    while more
      invariant 0 <= k <= |path|
      invariant k == |path| || path[k] == DirDelim
      invariant legal
      invariant forall i :: k < i ==> !DotDotAt(path, i)
      invariant !more ==> forall i :: !DotDotAt(path, i)
      decreases k, more
    {
      var pathbuf := path[..k];
      var split := LastIndexOf(pathbuf, DirDelim);
      var start := if split.Some? then split.value + 1 else 0;
      var file := pathbuf[start..];
      NoDotDotInsideComponent(path, k, start);
      if file == ".." {
        assert DotDotAt(path, start);
        legal := false;
        break;
      }
      assert !DotDotAt(path, start);
      more := split.Some?;
      if more {
        k := split.value;
      }
    }
  }

  /** Inside one component (start..k, no delimiter in it) a ".." can only
      start at the component's first character. */
  lemma NoDotDotInsideComponent(path: string, k: int, start: int)
    requires 0 <= start <= k <= |path|
    requires forall j :: start <= j < k ==> path[j] != DirDelim
    requires start == 0 || path[start - 1] == DirDelim
    ensures forall i :: start < i <= k ==> !DotDotAt(path, i)
  {
  }

  /** outputFileIsSpooled: a relative name is in the spool exactly when
      the job's working directory is the spool directory; an absolute
      name exactly when it starts with the spool directory's path. A
      missing name is never spooled. */
  function OutputFileIsSpooled(fname: Option<string>, iwd: Option<string>, spoolSpace: Option<string>): (r: bool)
    ensures fname.None? ==> !r
    ensures fname.Some? && !IsAbsolute(fname.value) ==>
              (r <==> iwd.Some? && spoolSpace.Some? && iwd.value == spoolSpace.value)
    ensures fname.Some? && IsAbsolute(fname.value) ==>
              (r <==> spoolSpace.Some? && spoolSpace.value <= fname.value)
  {
    if fname.None? then false
    else if !IsAbsolute(fname.value) then
      iwd.Some? && spoolSpace.Some? && iwd.value == spoolSpace.value
    else
      spoolSpace.Some? && |spoolSpace.value| <= |fname.value|
      && fname.value[..|spoolSpace.value|] == spoolSpace.value
  }
}
