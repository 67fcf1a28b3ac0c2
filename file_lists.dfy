/** The string lists FileTransfer keeps: the no-duplicate append used for
    OutputFiles, ExceptionFiles and IntermediateFiles, the changed-file
    rule of ComputeFilesToSend, the download filename remap string and
    the list of supported transfer methods. A StringList is a sequence of
    names; membership is file_contains, an exact comparison (Unix). */
module FileLists {
  import opened Text

  predicate Distinct(list: seq<string>)
  {
    forall i, j :: 0 <= i < j < |list| ==> list[i] != list[j]
  }

  function OrEmpty(list: Option<seq<string>>): seq<string>
  {
    if list.Some? then list.value else []
  }

  /** file_contains, then append when absent. */
  function AppendNew(list: seq<string>, f: string): seq<string>
  {
    if f in list then list else list + [f]
  }

  /** The list gains exactly the new name, keeps its order and stays free
      of duplicates; appending the same name again changes nothing. */
  lemma AppendNewMeaning(list: seq<string>, f: string)
    ensures forall g :: g in AppendNew(list, f) <==> g in list || g == f
    ensures |list| <= |AppendNew(list, f)| <= |list| + 1
    ensures AppendNew(list, f)[..|list|] == list
    ensures Distinct(list) ==> Distinct(AppendNew(list, f))
    ensures AppendNew(AppendNew(list, f), f) == AppendNew(list, f)
  {
  }

  // ---------------------------------------------------------------
  // ComputeFilesToSend

  /** One entry of the job's working directory. */
  datatype DirEntry = DirEntry(name: string, isDirectory: bool, mtime: int, size: int)

  /** What the file catalog remembers of a file from the last download. */
  datatype CatalogEntry = CatalogEntry(mtime: int, size: int)

  /** The lists and catalog the per-file rule consults. finalFiles is
      SpooledIntermediateFiles on the final transfer, and empty
      otherwise. */
  datatype SendContext = SendContext(
    proxyBasename: Option<string>,
    exceptionFiles: Option<seq<string>>,
    catalog: map<string, CatalogEntry>,
    finalFiles: seq<string>,
    outputFiles: Option<seq<string>>)

  /** The name compared against to keep the executable at home. */
  const ExecName: string := "condor_exec."

  /** The names that are never sent back: the executable, the proxy,
      directories and excepted files. */
  predicate Skipped(e: DirEntry, ctx: SendContext)
  {
    e.name == ExecName
    || (ctx.proxyBasename.Some? && e.name == ctx.proxyBasename.value)
    || e.isDirectory
    || (ctx.exceptionFiles.Some? && e.name in ctx.exceptionFiles.value)
  }

  /** The names sent whatever their time stamp: new files, files changed
      in an earlier run, and output files added while the job ran. */
  predicate Forced(e: DirEntry, ctx: SendContext)
  {
    e.name !in ctx.catalog || e.name in ctx.finalFiles
    || (ctx.outputFiles.Some? && e.name in ctx.outputFiles.value)
  }

  /** A catalogued file has changed: with size -1 only a later time stamp
      counts, otherwise any difference in size or time stamp. */
  predicate Changed(e: DirEntry, c: CatalogEntry)
  {
    if c.size == -1 then e.mtime > c.mtime else c.size != e.size || c.mtime != e.mtime
  }

  /** The per-file rule of ComputeFilesToSend. */
  function ShouldSend(e: DirEntry, ctx: SendContext): (r: bool)
    ensures r ==> !Skipped(e, ctx)
    ensures !Skipped(e, ctx) && Forced(e, ctx) ==> r
    ensures !Skipped(e, ctx) && !Forced(e, ctx) ==> (r <==> Changed(e, ctx.catalog[e.name]))
  {
    if e.name == ExecName then false
    else if ctx.proxyBasename.Some? && e.name == ctx.proxyBasename.value then false
    else if e.isDirectory then false
    else if ctx.exceptionFiles.Some? && e.name in ctx.exceptionFiles.value then false
    else if e.name !in ctx.catalog then true
    else if e.name in ctx.finalFiles then true
    else if ctx.outputFiles.Some? && e.name in ctx.outputFiles.value then true
    else
      var c := ctx.catalog[e.name];
      if c.size == -1 then e.mtime > c.mtime
      else c.size != e.size || c.mtime != e.mtime
  }

  /** The names ComputeFilesToSend collects from the entries, in
      directory order. */
  function ChangedFiles(entries: seq<DirEntry>, ctx: SendContext): (r: seq<string>)
    ensures Distinct(r)
    decreases |entries|
  {
    if entries == [] then []
    else
      var prev := ChangedFiles(entries[..|entries| - 1], ctx);
      var e := entries[|entries| - 1];
      if ShouldSend(e, ctx) then AppendNew(prev, e.name) else prev
  }

  /** A name is collected exactly when some entry of that name passes the
      rule; so skipped names and unchanged catalogued files never are. */
  lemma {:induction false} ChangedFilesMembers(entries: seq<DirEntry>, ctx: SendContext, f: string)
    ensures f in ChangedFiles(entries, ctx) <==> SentBy(entries, ctx, f)
    decreases |entries|
  {
    if entries != [] {
      var n := |entries| - 1;
      var init := entries[..n];
      var last := entries[n];
      ChangedFilesMembers(init, ctx, f);
      AppendNewMeaning(ChangedFiles(init, ctx), last.name);
      SentBySplit(entries, ctx, f);
    }
  }

  /** Some entry named f passes the rule. */
  predicate SentBy(entries: seq<DirEntry>, ctx: SendContext, f: string)
  {
    exists i :: 0 <= i < |entries| && entries[i].name == f && ShouldSend(entries[i], ctx)
  }

  lemma SentBySplit(entries: seq<DirEntry>, ctx: SendContext, f: string)
    requires entries != []
    ensures SentBy(entries, ctx, f) <==>
              SentBy(entries[..|entries| - 1], ctx, f)
              || (entries[|entries| - 1].name == f && ShouldSend(entries[|entries| - 1], ctx))
  {
    var n := |entries| - 1;
    var init := entries[..n];
    if SentBy(entries, ctx, f) {
      var i :| 0 <= i < |entries| && entries[i].name == f && ShouldSend(entries[i], ctx);
      if i < n {
        assert init[i] == entries[i];
      }
    }
    if SentBy(init, ctx, f) {
      var i :| 0 <= i < |init| && init[i].name == f && ShouldSend(init[i], ctx);
      assert entries[i] == init[i];
    }
  }

  /** The catalog check in practice: a catalogued file that is not forced
      and whose size and time stamp match is not sent back, nor is any
      skipped entry, as long as no other entry carries its name. */
  lemma UnchangedFilesStayHome(entries: seq<DirEntry>, ctx: SendContext, k: nat)
    requires k < |entries|
    requires forall i :: 0 <= i < |entries| && i != k ==> entries[i].name != entries[k].name
    requires Skipped(entries[k], ctx)
             || (!Forced(entries[k], ctx) && !Changed(entries[k], ctx.catalog[entries[k].name]))
    ensures entries[k].name !in ChangedFiles(entries, ctx)
  {
    ChangedFilesMembers(entries, ctx, entries[k].name);
  }

  // ---------------------------------------------------------------
  // Download filename remaps

  /** AddDownloadFilenameRemap(s): a ';' first when the string already
      holds remaps. */
  function AppendRemaps(remaps: string, more: string): string
  {
    if remaps == [] then more else remaps + [';'] + more
  }

  /** Read back as ';'-separated entries, the remap string is the old
      entries followed by the new ones. */
  lemma RemapEntries(remaps: string, more: string)
    ensures SplitOn(AppendRemaps(remaps, more), ';')
            == (if remaps == [] then SplitOn(more, ';') else SplitOn(remaps, ';') + SplitOn(more, ';'))
  {
    if remaps != [] {
      SplitOnAppend(remaps, ';', more);
    }
  }

  /** The single remap source=target. */
  function RemapEntry(source: string, target: string): string
  {
    source + "=" + target
  }

  /** A single remap whose names hold no ';' adds exactly one entry. */
  lemma RemapAddsOneEntry(remaps: string, source: string, target: string)
    requires forall i :: 0 <= i < |source| ==> source[i] != ';'
    requires forall i :: 0 <= i < |target| ==> target[i] != ';'
    ensures SplitOn(AppendRemaps(remaps, RemapEntry(source, target)), ';')
            == (if remaps == [] then [] else SplitOn(remaps, ';')) + [RemapEntry(source, target)]
  {
    var e := RemapEntry(source, target);
    assert forall i :: 0 <= i < |e| ==> e[i] != ';' by {
      forall i | 0 <= i < |e|
        ensures e[i] != ';'
      {
        if i < |source| {
          assert e[i] == source[i];
        } else if i > |source| {
          assert e[i] == target[i - |source| - 1];
        }
      }
    }
    assert SplitOn(e, ';') == [e];
    RemapEntries(remaps, e);
  }

  // ---------------------------------------------------------------
  // GetSupportedMethods

  /** The methods of the plugin table, separated by commas; a comma is
      added only once the list is non-empty. */
  function MethodList(methods: seq<string>): string
    decreases |methods|
  {
    if methods == [] then ""
    else
      var prev := MethodList(methods[..|methods| - 1]);
      var m := methods[|methods| - 1];
      if prev == [] then m else prev + [','] + m
  }

  /** With no empty method names the list is the comma join. */
  lemma {:induction false} MethodListIsJoin(methods: seq<string>)
    requires forall i :: 0 <= i < |methods| ==> methods[i] != []
    ensures MethodList(methods) == Join([','], methods)
    ensures methods != [] ==> MethodList(methods) != []
    decreases |methods|
  {
    if |methods| > 1 {
      MethodListIsJoin(methods[..|methods| - 1]);
    }
  }

  /** GetSupportedMethods: empty without a plugin table; otherwise the
      table's methods followed by s3 when this side supports it. */
  function SupportedMethods(table: Option<seq<string>>, supportsS3: bool): string
  {
    if table.None? then ""
    else MethodList(table.value) + (if supportsS3 then ",s3" else "")
  }

  /** The peer splits the list at commas and recovers the table's
      methods, plus s3. */
  lemma SupportedMethodsSplit(table: seq<string>, supportsS3: bool)
    requires table != []
    requires forall i :: 0 <= i < |table| ==> table[i] != []
    requires forall i, j :: 0 <= i < |table| && 0 <= j < |table[i]| ==> table[i][j] != ','
    ensures SplitOn(SupportedMethods(Some(table), supportsS3), ',')
            == table + (if supportsS3 then ["s3"] else [])
  {
    MethodListIsJoin(table);
    SplitOnJoin(',', table);
    if supportsS3 {
      assert SupportedMethods(Some(table), true) == MethodList(table) + [','] + "s3";
      SplitOnAppend(MethodList(table), ',', "s3");
      assert LastIndexOf("s3", ',') == None;
      assert SplitOn("s3", ',') == ["s3"];
    } else {
      assert SupportedMethods(Some(table), false) == MethodList(table);
      assert table + [] == table;
    }
  }
}
