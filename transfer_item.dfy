/** One work item of the uploading side of a file transfer: its source
    name, destination URL and the URL schemes derived from them, and the
    order in which DoUpload performs the items (destination URLs first,
    then plain CEDAR transfers, then source URLs). */
module TransferItem {
  import opened Text

  /** A character IsUrl accepts in a scheme name. */
  predicate IsSchemeChar(c: char)
  {
    'a' <= c <= 'z' || 'A' <= c <= 'Z'
  }

  /** Length of the leading run of scheme characters. */
  function SchemeRun(s: string): (n: nat)
    ensures n <= |s|
    ensures forall i :: 0 <= i < n ==> IsSchemeChar(s[i])
    ensures n < |s| ==> !IsSchemeChar(s[n])
    decreases |s|
  {
    if s != [] && IsSchemeChar(s[0]) then 1 + SchemeRun(s[1..]) else 0
  }

  /** IsUrl: the scheme of s when s starts with a non-empty scheme
      followed by "://", otherwise None. */
  function UrlScheme(s: string): (r: Option<string>)
    ensures r.Some? ==> r.value != [] && r.value + "://" <= s
    ensures r.Some? ==> forall i :: 0 <= i < |r.value| ==> IsSchemeChar(r.value[i])
  {
    var n := SchemeRun(s);
    if 0 < n && n + 3 <= |s| && s[n..n + 3] == "://" then Some(s[..n]) else None
  }

  /** Every URL built from a scheme and a remainder yields that scheme. */
  lemma {:induction false} UrlSchemeOfUrl(scheme: string, rest: string)
    requires scheme != []
    requires forall i :: 0 <= i < |scheme| ==> IsSchemeChar(scheme[i])
    ensures UrlScheme(scheme + "://" + rest) == Some(scheme)
  {
    var s := scheme + "://" + rest;
    SchemeRunOfPrefix(scheme, "://" + rest);
    assert s == scheme + ("://" + rest);
    assert s[|scheme|..|scheme| + 3] == "://";
    assert s[..|scheme|] == scheme;
  }

  lemma {:induction false} SchemeRunOfPrefix(scheme: string, tail: string)
    requires forall i :: 0 <= i < |scheme| ==> IsSchemeChar(scheme[i])
    requires tail != [] && !IsSchemeChar(tail[0])
    ensures SchemeRun(scheme + tail) == |scheme|
    decreases |scheme|
  {
    if scheme != [] {
      assert (scheme + tail)[1..] == scheme[1..] + tail;
      SchemeRunOfPrefix(scheme[1..], tail);
    }
  }

  /** The sort key that operator< compares: the rank of the item's kind
      (0 destination URL, 1 plain CEDAR file, 2 source URL) and two strings
      compared in turn. */
  datatype ItemKey = ItemKey(rank: nat, major: string, minor: string)

  /** Lexicographic order on keys. */
  predicate KeyLess(a: ItemKey, b: ItemKey)
  {
    a.rank < b.rank
    || (a.rank == b.rank && (LexLess(a.major, b.major)
                             || (a.major == b.major && LexLess(a.minor, b.minor))))
  }

  lemma KeyLessIrreflexive(a: ItemKey)
    ensures !KeyLess(a, a)
  {
    LexLessIrreflexive(a.major);
    LexLessIrreflexive(a.minor);
  }

  lemma KeyLessTransitive(a: ItemKey, b: ItemKey, c: ItemKey)
    requires KeyLess(a, b) && KeyLess(b, c)
    ensures KeyLess(a, c)
  {
    if a.rank == b.rank == c.rank {
      if LexLess(a.major, b.major) && LexLess(b.major, c.major) {
        LexLessTransitive(a.major, b.major, c.major);
      } else if a.major == b.major == c.major {
        LexLessTransitive(a.minor, b.minor, c.minor);
      }
    }
  }

  /** Two keys are either ordered one way, or the other, or equal; never
      both ways. */
  lemma KeyLessTrichotomy(a: ItemKey, b: ItemKey)
    ensures KeyLess(a, b) || a == b || KeyLess(b, a)
    ensures !(KeyLess(a, b) && KeyLess(b, a))
  {
    LexLessTrichotomy(a.major, b.major);
    LexLessTrichotomy(a.minor, b.minor);
  }

  class FileTransferItem {
    var srcScheme: string
    var destScheme: string
    var srcName: string
    var destUrl: string
    var isDirectory: bool
    var isSymlink: bool

    constructor ()
      ensures srcScheme == [] && destScheme == [] && srcName == [] && destUrl == []
      ensures !isDirectory && !isSymlink
    {
      srcScheme := [];
      destScheme := [];
      srcName := [];
      destUrl := [];
      isDirectory := false;
      isSymlink := false;
    }

    predicate IsSrcUrl()
      reads this
    {
      srcScheme != []
    }

    predicate IsDestUrl()
      reads this
    {
      destScheme != []
    }

    /** setSrcName: the scheme follows the name only when the name is a
        URL; otherwise the previous scheme stays. */
    method SetSrcName(src: string)
      modifies this
      ensures srcName == src
      ensures srcScheme == (if UrlScheme(src).Some? then UrlScheme(src).value else old(srcScheme))
      ensures destScheme == old(destScheme) && destUrl == old(destUrl)
      ensures isDirectory == old(isDirectory) && isSymlink == old(isSymlink)
    {
      srcName := src;
      var scheme := UrlScheme(src);
      if scheme.Some? {
        srcScheme := scheme.value;
      }
    }

    /** setDestUrl, the same rule for the destination. */
    method SetDestUrl(url: string)
      modifies this
      ensures destUrl == url
      ensures destScheme == (if UrlScheme(url).Some? then UrlScheme(url).value else old(destScheme))
      ensures srcScheme == old(srcScheme) && srcName == old(srcName)
      ensures isDirectory == old(isDirectory) && isSymlink == old(isSymlink)
    {
      destUrl := url;
      var scheme := UrlScheme(url);
      if scheme.Some? {
        destScheme := scheme.value;
      }
    }

    /** operator<, branch for branch. */
    predicate Less(other: FileTransferItem)
      reads this, other
    {
      if IsDestUrl() && !other.IsDestUrl() then true
      else if !IsDestUrl() && other.IsDestUrl() then false
      else if IsDestUrl() then
        (if destScheme == other.destScheme then LexLess(destUrl, other.destUrl)
         else LexLess(destScheme, other.destScheme))
      else if IsSrcUrl() && !other.IsSrcUrl() then false
      else if !IsSrcUrl() && other.IsSrcUrl() then true
      else if IsSrcUrl() then
        (if srcScheme == other.srcScheme then LexLess(srcName, other.srcName)
         else LexLess(srcScheme, other.srcScheme))
      else LexLess(srcName, other.srcName)
    }

    /** The key operator< sorts by. */
    function Key(): (k: ItemKey)
      reads this
      ensures k.rank == 0 <==> IsDestUrl()
      ensures k.rank == 2 <==> !IsDestUrl() && IsSrcUrl()
      ensures k.rank <= 2
    {
      if IsDestUrl() then ItemKey(0, destScheme, destUrl)
      else if IsSrcUrl() then ItemKey(2, srcScheme, srcName)
      else ItemKey(1, srcName, [])
    }
  }

  /** operator< is exactly the lexicographic order on the items' keys. */
  lemma LessIsKeyOrder(a: FileTransferItem, b: FileTransferItem)
    ensures a.Less(b) <==> KeyLess(a.Key(), b.Key())
  {
    if a.IsDestUrl() && b.IsDestUrl() {
      LexLessTrichotomy(a.destScheme, b.destScheme);
    } else if !a.IsDestUrl() && !b.IsDestUrl() && a.IsSrcUrl() && b.IsSrcUrl() {
      LexLessTrichotomy(a.srcScheme, b.srcScheme);
    } else if !a.IsDestUrl() && !b.IsDestUrl() && !a.IsSrcUrl() && !b.IsSrcUrl() {
      LexLessIrreflexive([]);
    }
  }

  /** Destination-URL items come before every other item, and plain items
      before source-URL items. */
  lemma LessRanksKinds(a: FileTransferItem, b: FileTransferItem)
    ensures a.IsDestUrl() && !b.IsDestUrl() ==> a.Less(b) && !b.Less(a)
    ensures !a.IsDestUrl() && !b.IsDestUrl() && !a.IsSrcUrl() && b.IsSrcUrl()
            ==> a.Less(b) && !b.Less(a)
  {
  }

  /** operator< is a strict order: irreflexive and transitive, and two
      items are unordered exactly when their keys agree. */
  lemma LessIsStrictOrder(a: FileTransferItem, b: FileTransferItem, c: FileTransferItem)
    ensures !a.Less(a)
    ensures a.Less(b) && b.Less(c) ==> a.Less(c)
    ensures !(a.Less(b) && b.Less(a))
    ensures !a.Less(b) && !b.Less(a) <==> a.Key() == b.Key()
  {
    LessIsKeyOrder(a, a);
    LessIsKeyOrder(a, b);
    LessIsKeyOrder(b, a);
    LessIsKeyOrder(b, c);
    LessIsKeyOrder(a, c);
    KeyLessIrreflexive(a.Key());
    KeyLessTrichotomy(a.Key(), b.Key());
    if a.Less(b) && b.Less(c) {
      KeyLessTransitive(a.Key(), b.Key(), c.Key());
    }
  }
}
