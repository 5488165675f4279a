/** A multi-file archive: total size, an order-keeping manifest, and one byte stream
    built by slicing every file and concatenating the slices. */
module Archives {
  import opened Wrappers
  import opened Common
  import BlobStream
  import ConcatStream
  import Keychains

  /** A selected file: its name, its MIME type, and its bytes (its size is their count). */
  datatype File = File(name: string, mimeType: string, data: seq<Byte>)

  datatype Archive = Archive(files: seq<File>)

  /** The archive's fixed name and type, whatever the files. */
  const ArchiveName: string := "Send-Archive.zip"
  const ArchiveType: string := "send-archive"

  /** The size of a file. */
  function FileSize(f: File): nat
  {
    |f.data|
  }

  /** The files' data, in order. */
  function Contents(files: seq<File>): (r: seq<seq<Byte>>)
    ensures |r| == |files|
    ensures forall i :: 0 <= i < |files| ==> r[i] == files[i].data
  {
    if |files| == 0 then [] else [files[0].data] + Contents(files[1..])
  }

  /** The sum of the sizes of `files`, the `reduce` the size getter performs: the length
      of their joined bytes. */
  function SizeOf(files: seq<File>): (n: nat)
    ensures n == |Join(Contents(files))|
  {
    if |files| == 0 then 0
    else
      var init := files[..|files| - 1];
      var last := files[|files| - 1];
      assert Contents(files) == Contents(init) + [last.data];
      JoinSnoc(Contents(init), last.data);
      SizeOf(init) + FileSize(last)
  }

  /** The archive size: the files' byte counts added up; their joined bytes have that length. */
  function Size(a: Archive): (n: nat)
    ensures n == |Join(Contents(a.files))|
    ensures a.files == [] ==> n == 0
  {
    SizeOf(a.files)
  }

  /** The manifest: one entry per file, in file order, copying name, size and type. */
  function ManifestEntries(a: Archive): (m: seq<Entry>)
    ensures |m| == |a.files|
    ensures forall i :: 0 <= i < |m| ==>
      m[i] == Entry(a.files[i].name, FileSize(a.files[i]), a.files[i].mimeType)
  {
    seq(|a.files|, i requires 0 <= i < |a.files| =>
      Entry(a.files[i].name, FileSize(a.files[i]), a.files[i].mimeType))
  }

  /** The sum of a manifest's sizes. */
  function EntrySizes(m: seq<Entry>): nat
  {
    if |m| == 0 then 0 else EntrySizes(m[..|m| - 1]) + m[|m| - 1].size
  }

  /** The manifest's sizes add up to the archive size. */
  lemma {:induction false} ManifestSizes(a: Archive)
    ensures EntrySizes(ManifestEntries(a)) == Size(a)
    decreases |a.files|
  {
    if |a.files| > 0 {
      var init := Archive(a.files[..|a.files| - 1]);
      ManifestSizes(init);
      assert ManifestEntries(a)[..|a.files| - 1] == ManifestEntries(init);
    }
  }

  /** Each file sliced at the default chunk size. */
  function FileStreams(files: seq<File>): (r: seq<seq<Chunk>>)
    ensures |r| == |files|
    ensures forall i :: 0 <= i < |files| ==>
      r[i] == BlobStream.Drain(BlobStream.New(files[i].data, None))
  {
    seq(|files|, i requires 0 <= i < |files| => BlobStream.Drain(BlobStream.New(files[i].data, None)))
  }

  /** The archive stream: the concatenation of one default-size slicer per file. */
  function Stream(a: Archive): (r: seq<Chunk>)
    ensures r == Join(FileStreams(a.files))
  {
    ConcatStream.ConcatOutput(FileStreams(a.files));
    ConcatStream.Drain(ConcatStream.New(FileStreams(a.files)))
  }

  /** Slicing every file and joining the slices gives back the files' bytes. */
  lemma {:induction false} JoinFileStreams(files: seq<File>)
    ensures Join(Join(FileStreams(files))) == Join(Contents(files))
  {
    if |files| > 0 {
      BlobStream.SlicerCoverage(files[0].data, None);
      assert FileStreams(files) == [FileStreams(files)[0]] + FileStreams(files[1..]);
      JoinAppend([FileStreams(files)[0]], FileStreams(files[1..]));
      JoinAppend(FileStreams(files)[0], Join(FileStreams(files[1..])));
      JoinFileStreams(files[1..]);
      assert Contents(files) == [files[0].data] + Contents(files[1..]);
    }
  }

  /** End to end: the archive stream carries the files' bytes concatenated in file order,
      so its byte length equals the archive size, and no chunk exceeds the default size. */
  lemma StreamIsFilesInOrder(a: Archive)
    ensures Join(Stream(a)) == Join(Contents(a.files))
    ensures |Join(Stream(a))| == Size(a)
    ensures forall k :: 0 <= k < |Stream(a)| ==> 0 < |Stream(a)[k]| <= BlobStream.DefaultChunkSize
  {
    JoinFileStreams(a.files);
    var ss := FileStreams(a.files);
    forall i, j | 0 <= i < |ss| && 0 <= j < |ss[i]|
      ensures 0 < |ss[i][j]| <= BlobStream.DefaultChunkSize
    {
      BlobStream.DrainCovers(BlobStream.New(a.files[i].data, None));
    }
    forall k | 0 <= k < |Stream(a)|
      ensures 0 < |Stream(a)[k]| <= BlobStream.DefaultChunkSize
    {
      ChunkFromSomeFile(FileStreams(a.files), Stream(a)[k]);
    }
  }

  /** Every element of a join comes from one of the joined sequences. */
  lemma {:induction false} ChunkFromSomeFile(ss: seq<seq<Chunk>>, c: Chunk)
    requires c in Join(ss)
    requires forall i, j :: 0 <= i < |ss| && 0 <= j < |ss[i]| ==> 0 < |ss[i][j]| <= BlobStream.DefaultChunkSize
    ensures 0 < |c| <= BlobStream.DefaultChunkSize
  {
    assert |ss| > 0;
    if c in ss[0] {
      var j :| 0 <= j < |ss[0]| && ss[0][j] == c;
    } else {
      ChunkFromSomeFile(ss[1..], c);
    }
  }

  /** An archive described to `encryptMetadata` keeps its type and its manifest. */
  lemma ArchiveDescriptor(k: Keychains.Keychain, p: Keychains.Primitives, a: Archive)
    ensures var d := Keychains.DescriptorOf(k, p, Keychains.Metadata(ArchiveName, Size(a),
                                  Some(ArchiveType), Some(Keychains.FileList(ManifestEntries(a)))));
      && d.mimeType == "send-archive"
      && d.name == "Send-Archive.zip"
      && d.manifest == Keychains.FileList(ManifestEntries(a))
      && EntrySizes(d.manifest.files) == d.size
  {
    ManifestSizes(a);
  }
}
