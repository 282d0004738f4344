/**
 * Choosing what goes into the archive: of the working directory's listing,
 * the names that end with ".pdf", in listing order, each read from the
 * working directory and stored under its bare name.
 */
module Archive {
  import opened Artifacts

  /** One `zipf.write(path, arcname)` call. */
  datatype Entry = Entry(path: string, arcname: string)

  predicate IsPdf(name: string) {
    EndsWith(name, ".pdf")
  }

  /** The listing filtered down to the documents, order kept. */
  function Selected(listing: seq<string>): seq<string> {
    if listing == [] then []
    else (if IsPdf(listing[0]) then [listing[0]] else []) + Selected(listing[1..])
  }

  function EntryFor(name: string): Entry {
    Entry(JoinPath(PartsDir, name), name)
  }

  /**
   * `create_zip_file`, given the wall-clock timestamp and the listing of the
   * working directory: the archive path and the entries written, in order.
   */
  method CreateZipFile(timestamp: string, listing: seq<string>) returns (zipPath: string, entries: seq<Entry>)
    ensures zipPath == ArchivePath(timestamp)
    ensures |entries| == |Selected(listing)|
    ensures forall i :: 0 <= i < |entries| ==> entries[i] == EntryFor(Selected(listing)[i])
  {
    zipPath := JoinPath(OutputDir, "robot_orders_" + timestamp + ".zip");
    entries := [];
    var i := 0;
    while i < |listing|
      invariant 0 <= i <= |listing|
      invariant |entries| == |Selected(listing[..i])|
      invariant forall j :: 0 <= j < |entries| ==> entries[j] == EntryFor(Selected(listing[..i])[j])
    {
      var name := listing[i];
      assert listing[..i + 1] == listing[..i] + [name];
      SelectedSplit(listing[..i], [name]);
      assert [name][1..] == [];
      if IsPdf(name) {
        entries := entries + [EntryFor(name)];
      }
      i := i + 1;
    }
    assert listing[..i] == listing;
  }

  /** Filtering distributes over concatenation, so listing order is kept. */
  lemma {:induction false} SelectedSplit(a: seq<string>, b: seq<string>)
    ensures Selected(a + b) == Selected(a) + Selected(b)
    decreases |a|
  {
    if a == [] {
      assert a + b == b;
    } else {
      assert (a + b)[1..] == a[1..] + b;
      SelectedSplit(a[1..], b);
    }
  }

  /** A name is archived exactly when it is listed and ends with ".pdf". */
  lemma {:induction false} SelectedMembers(listing: seq<string>, name: string)
    ensures name in Selected(listing) <==> name in listing && IsPdf(name)
    decreases |listing|
  {
    if listing != [] {
      SelectedMembers(listing[1..], name);
      assert listing == [listing[0]] + listing[1..];
    }
  }

  /** Every archived entry is stored under its bare name and read from the working directory. */
  lemma EntriesAreDocuments(listing: seq<string>, entries: seq<Entry>, i: nat)
    requires |entries| == |Selected(listing)|
    requires forall j :: 0 <= j < |entries| ==> entries[j] == EntryFor(Selected(listing)[j])
    requires i < |entries|
    ensures entries[i].arcname in listing && IsPdf(entries[i].arcname)
    ensures entries[i].path == PartsDir + "/" + entries[i].arcname
  {
    SelectedMembers(listing, entries[i].arcname);
  }

  function FileNames(files: seq<Artifact>): (names: seq<string>)
    ensures |names| == |files|
  {
    if files == [] then [] else [files[0].FileName()] + FileNames(files[1..])
  }

  function OrderDocuments(files: seq<Artifact>): seq<Artifact> {
    if files == [] then []
    else (if files[0].OrderPdf? then [files[0]] else []) + OrderDocuments(files[1..])
  }

  /**
   * On a working directory holding the pipeline's artifacts, the archive
   * takes exactly the order documents and none of the preview, receipt or
   * combined images.
   */
  lemma {:induction false} SelectedArtifacts(files: seq<Artifact>)
    ensures Selected(FileNames(files)) == FileNames(OrderDocuments(files))
    decreases |files|
  {
    if files != [] {
      PdfSuffixIffOrderPdf(files[0]);
      SelectedArtifacts(files[1..]);
      assert FileNames(files)[1..] == FileNames(files[1..]);
      if files[0].OrderPdf? {
        assert FileNames([files[0]] + OrderDocuments(files[1..]))
            == [files[0].FileName()] + FileNames(OrderDocuments(files[1..]));
      } else {
        assert OrderDocuments(files) == OrderDocuments(files[1..]);
      }
    }
  }

  /** The archive has one entry per order document in the directory. */
  lemma {:induction false} ArchiveSize(files: seq<Artifact>)
    ensures |Selected(FileNames(files))| == |OrderDocuments(files)|
  {
    SelectedArtifacts(files);
  }

  /** A directory holds as many order documents as there are positions holding one. */
  lemma {:induction false} DocumentCount(files: seq<Artifact>, documents: set<int>)
    requires forall i :: i in documents ==> 0 <= i < |files|
    requires forall i :: 0 <= i < |files| ==> (files[i].OrderPdf? <==> i in documents)
    ensures |OrderDocuments(files)| == |documents|
    decreases |files|
  {
    if files == [] {
      assert forall i :: i !in documents;
      assert documents == {};
    } else {
      var n := |files| - 1;
      var rest := documents - {n};
      assert forall i :: 0 <= i < n ==> files[..n][i] == files[i];
      DocumentCount(files[..n], rest);
      OrderDocumentsSnoc(files);
      RemoveLastPosition(documents, n, files[n].OrderPdf?);
    }
  }

  lemma OrderDocumentsSnoc(files: seq<Artifact>)
    requires files != []
    ensures |OrderDocuments(files)|
         == |OrderDocuments(files[..|files| - 1])| + (if files[|files| - 1].OrderPdf? then 1 else 0)
  {
    var n := |files| - 1;
    var last := [files[n]];
    assert files == files[..n] + last;
    OrderDocumentsSplit(files[..n], last);
    assert last[1..] == [];
    assert OrderDocuments(last) == (if files[n].OrderPdf? then last else []) + OrderDocuments([]);
  }

  lemma RemoveLastPosition(documents: set<int>, n: int, present: bool)
    requires present <==> n in documents
    ensures |documents| == |documents - {n}| + (if present then 1 else 0)
  {
    if present {
      assert documents == (documents - {n}) + {n};
    } else {
      assert documents - {n} == documents;
    }
  }

  /** A directory of three documents and four images, in any order, gives an archive of three entries. */
  lemma ThreeDocumentsFourImages(files: seq<Artifact>, documents: set<int>)
    requires |files| == 7 && |documents| == 3
    requires forall i :: i in documents ==> 0 <= i < |files|
    requires forall i :: 0 <= i < |files| ==> (files[i].OrderPdf? <==> i in documents)
    ensures |Selected(FileNames(files))| == 3
  {
    DocumentCount(files, documents);
    ArchiveSize(files);
  }

  lemma {:induction false} OrderDocumentsSplit(a: seq<Artifact>, b: seq<Artifact>)
    ensures OrderDocuments(a + b) == OrderDocuments(a) + OrderDocuments(b)
    decreases |a|
  {
    if a == [] {
      assert a + b == b;
    } else {
      assert (a + b)[0] == a[0];
      assert (a + b)[1..] == a[1..] + b;
      OrderDocumentsSplit(a[1..], b);
    }
  }

  lemma {:induction false} NoOrderDocuments(files: seq<Artifact>)
    requires forall i :: 0 <= i < |files| ==> !files[i].OrderPdf?
    ensures OrderDocuments(files) == []
    decreases |files|
  {
    if files != [] {
      NoOrderDocuments(files[1..]);
    }
  }

  lemma {:induction false} AllOrderDocuments(files: seq<Artifact>)
    requires forall i :: 0 <= i < |files| ==> files[i].OrderPdf?
    ensures OrderDocuments(files) == files
    decreases |files|
  {
    if files != [] {
      AllOrderDocuments(files[1..]);
      assert [files[0]] + files[1..] == files;
    }
  }
}
