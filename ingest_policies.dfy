/** Loading the chunked policy files into the vector store
    (agent/ingest_policies.py). The files the glob finds, in its order, are
    the input; the `upsert` calls are returned as the list of batches they
    receive. */
module IngestPolicies {
  import opened Seqs
  import opened Text

  /** `MAX_DOCUMENT_BYTES`: the largest document, in UTF-8 bytes, that is stored. */
  const MaxDocumentBytes: nat := 16000

  /** `batch_size`. */
  const BatchSize: nat := 100

  /** One `*.txt` file of the chunk directory: its name without the suffix
      and its text. */
  datatype ChunkFile = ChunkFile(stem: string, content: string)

  function FileName(f: ChunkFile): string
  {
    f.stem + ".txt"
  }

  /** The number of bytes the UTF-8 encoding of `c` takes. */
  function CharBytes(c: char): (n: nat)
    ensures 1 <= n <= 4
    ensures n == 1 <==> c as int < 0x80
  {
    if c as int < 0x80 then 1 else if c as int < 0x800 then 2 else if c as int < 0x10000 then 3 else 4
  }

  /** `len(s.encode("utf-8"))`. */
  function Utf8Length(s: string): (n: nat)
    ensures |s| <= n <= 4 * |s|
    decreases |s|
  {
    if s == [] then 0 else Utf8Length(s[..|s| - 1]) + CharBytes(s[|s| - 1])
  }

  /** The encoded length of a concatenation is the sum of the lengths. */
  lemma {:induction false} Utf8LengthAppend(a: string, b: string)
    ensures Utf8Length(a + b) == Utf8Length(a) + Utf8Length(b)
    decreases |b|
  {
    if b != [] {
      var binit := b[..|b| - 1];
      Utf8LengthAppend(a, binit);
      assert (a + b)[..|a + b| - 1] == a + binit;
      assert (a + b)[|a + b| - 1] == b[|b| - 1];
    } else {
      assert a + b == a;
    }
  }

  /** An ASCII text takes one byte per character. */
  lemma {:induction false} Utf8LengthAscii(s: string)
    requires forall i :: 0 <= i < |s| ==> s[i] as int < 0x80
    ensures Utf8Length(s) == |s|
    decreases |s|
  {
    if s != [] {
      Utf8LengthAscii(s[..|s| - 1]);
    }
  }

  /** A file is stored unless its text exceeds the byte limit. */
  predicate Kept(f: ChunkFile)
  {
    Utf8Length(f.content) <= MaxDocumentBytes
  }

  /** Python's `s.split(sep, 1)`: the text before the first `sep` and the
      text after it, or `s` alone when there is none. */
  function SplitFirst(s: string, sep: char): (r: seq<string>)
    ensures 1 <= |r| <= 2
    ensures |r| == 1 <==> sep !in s
    ensures |r| == 1 ==> r[0] == s
    ensures |r| == 2 ==> sep !in r[0] && r[0] + [sep] + r[1] == s
  {
    match IndexOf(s, sep)
    case None => [s]
    case Some(k) =>
      assert s[..k] + [sep] + s[k + 1..] == s;
      [s[..k], s[k + 1..]]
  }

  /** Python's `s.rsplit(pat, 1)[0]`: the text before the last `pat`, or `s`
      when there is none. */
  function BeforeLast(s: string, pat: string): (r: string)
    requires pat != []
    ensures |r| <= |s| && r == s[..|r|]
    ensures r == s <==> forall j :: !OccursAt(s, pat, j)
    ensures r != s ==> OccursAt(s, pat, |r|) && forall j :: |r| < j ==> !OccursAt(s, pat, j)
  {
    match LastIndexOf(s, pat)
    case None => s
    case Some(k) => s[..k]
  }

  /** `chunk_num`: the stem up to its first "-". (The `ch{i}` fallback is
      never taken, because a split always has a first part.) */
  function ChunkNumber(stem: string): (r: string)
    ensures |r| <= |stem| && r == stem[..|r|] && '-' !in r
    ensures r != stem ==> stem[|r|] == '-'
  {
    SplitFirst(stem, '-')[0]
  }

  /** `policy_name` before its underscores become spaces: the stem after the
      first "-" with the last "-len" suffix cut off, or the whole stem when
      it has no "-". */
  function RawPolicyName(stem: string): (r: string)
    ensures '-' !in stem ==> r == stem
    ensures '-' in stem ==> r == BeforeLast(stem[|ChunkNumber(stem)| + 1..], "-len")
  {
    var parts := SplitFirst(stem, '-');
    if |parts| > 1 then BeforeLast(parts[1], "-len") else stem
  }

  datatype ChunkMetadata = ChunkMetadata(source: string, policyName: string, chunk: string)

  function MetadataOf(f: ChunkFile): (m: ChunkMetadata)
    ensures m.source == FileName(f) && m.chunk == ChunkNumber(f.stem)
    ensures |m.policyName| == |RawPolicyName(f.stem)| && '_' !in m.policyName
    ensures forall i :: 0 <= i < |m.policyName| ==>
      m.policyName[i] == (if RawPolicyName(f.stem)[i] == '_' then ' ' else RawPolicyName(f.stem)[i])
  {
    ChunkMetadata(FileName(f), ReplaceChar(RawPolicyName(f.stem), '_', ' '), ChunkNumber(f.stem))
  }

  /** A stem of the form `num-name-len<count>`, with no other "-", gives
      `num` as the chunk number and `name` as the raw policy name. */
  lemma ParseStem(num: string, name: string, count: string)
    requires '-' !in num && '-' !in name && '-' !in count
    ensures ChunkNumber(num + "-" + name + "-len" + count) == num
    ensures RawPolicyName(num + "-" + name + "-len" + count) == name
  {
    var rest := name + "-len" + count;
    SplitAtFirst(num, rest, '-');
    assert num + "-" + name + "-len" + count == num + "-" + rest;
    CutAtLast(name, count);
  }

  /** Splitting `a + [sep] + b` on its first `sep`, when `a` has none. */
  lemma SplitAtFirst(a: string, b: string, sep: char)
    requires sep !in a
    ensures SplitFirst(a + [sep] + b, sep) == [a, b]
  {
    var s := a + [sep] + b;
    var k := IndexOf(s, sep);
    assert s[|a|] == sep;
    assert k.Some?;
    assert s[..k.value] == a[..k.value];
    assert k.value == |a|;
    assert s[..|a|] == a && s[|a| + 1..] == b;
  }

  /** Cutting `name + "-len" + count` before its last "-len", when neither
      part has a "-". */
  lemma CutAtLast(name: string, count: string)
    requires '-' !in name && '-' !in count
    ensures BeforeLast(name + "-len" + count, "-len") == name
  {
    var rest := name + "-len" + count;
    assert OccursAt(rest, "-len", |name|);
    forall j | |name| < j <= |rest| - 4
      ensures rest[j] != '-'
    {
      if j > |name| + 3 {
        assert rest[j] == count[j - |name| - 4];
      }
    }
    var r := BeforeLast(rest, "-len");
    assert r != rest;
    assert rest[|r|..|r| + 4] == "-len" && rest[|r|] == rest[|r|..|r| + 4][0];
    assert |r| == |name|;
    assert rest[..|name|] == name;
  }

  /** The example stem of the source's comment. */
  lemma ParseExample()
    ensures ChunkNumber("ch1-academic_credit_policy-len477") == "ch1"
    ensures RawPolicyName("ch1-academic_credit_policy-len477") == "academic_credit_policy"
  {
    assert "ch1-academic_credit_policy-len477" == "ch1" + "-" + "academic_credit_policy" + "-len" + "477";
    ParseStem("ch1", "academic_credit_policy", "477");
  }

  /** The metadata stored for the example file: its chunk number, and its
      policy name with the underscores turned into spaces. */
  lemma MetadataExample(content: string)
    ensures var m := MetadataOf(ChunkFile("ch1-academic_credit_policy-len477", content));
      m.chunk == "ch1" && m.policyName == "academic credit policy"
  {
    var stem := "ch1-academic_credit_policy-len477";
    var m := MetadataOf(ChunkFile(stem, content));
    assert m.chunk == "ch1" && RawPolicyName(stem) == "academic_credit_policy" by {
      ParseExample();
    }
    assert m.policyName == "academic credit policy" by {
      SpacedExample();
    }
  }

  lemma SpacedExample()
    ensures ReplaceChar("academic_credit_policy", '_', ' ') == "academic credit policy"
  {
  }

  /** `f"{filename}_{i}"`. */
  function Id(stem: string, i: nat): string
  {
    stem + "_" + NatToString(i)
  }

  /** The position counts in the id: two ids agree only for the same stem
      and the same position. */
  lemma IdInjective(s1: string, i: nat, s2: string, j: nat)
    requires Id(s1, i) == Id(s2, j)
    ensures s1 == s2 && i == j
  {
    var x := Id(s1, i);
    IdShape(s1, i);
    IdShape(s2, j);
    // after its stem an id holds only digits, so both stems end at the same '_'
    assert !('0' <= x[|s1|] <= '9') && !('0' <= x[|s2|] <= '9');
    assert |s1| == |s2|;
    NatToStringInjective(i, j);
  }

  lemma IdShape(stem: string, i: nat)
    ensures var x := Id(stem, i);
      |x| > |stem| && x[|stem|] == '_' && x[..|stem|] == stem && x[|stem| + 1..] == NatToString(i) &&
      forall p :: |stem| < p < |x| ==> '0' <= x[p] <= '9'
  {
    var x, d := Id(stem, i), NatToString(i);
    assert forall p :: |stem| < p < |x| ==> x[p] == d[p - |stem| - 1];
  }

  /** A kept file and its position in the full list: the loop records its
      text, its metadata and its id. */
  datatype Entry = Entry(index: nat, file: ChunkFile)

  function EntryOf(f: ChunkFile, i: nat): Entry
  {
    Entry(i, f)
  }

  /** The entries for the kept files, in file order, each numbered by its
      position among all files. */
  function Entries(files: seq<ChunkFile>): (r: seq<Entry>)
    ensures |r| <= |files|
    decreases |files|
  {
    if files == [] then []
    else
      var n := |files| - 1;
      Entries(files[..n]) + (if Kept(files[n]) then [EntryOf(files[n], n)] else [])
  }

  lemma EntriesSnoc(files: seq<ChunkFile>, f: ChunkFile)
    ensures Entries(files + [f]) == Entries(files) + (if Kept(f) then [EntryOf(f, |files|)] else [])
  {
    assert (files + [f])[..|files|] == files;
  }

  /** Every entry comes from a kept file at its recorded position. */
  lemma {:induction false} EntriesSound(files: seq<ChunkFile>)
    ensures forall k :: 0 <= k < |Entries(files)| ==>
      var e := Entries(files)[k];
      e.index < |files| && Kept(files[e.index]) && e == EntryOf(files[e.index], e.index)
    decreases |files|
  {
    if files != [] {
      var n := |files| - 1;
      EntriesSound(files[..n]);
    }
  }

  /** Entries appear in increasing file position. */
  lemma {:induction false} EntriesOrdered(files: seq<ChunkFile>)
    ensures forall a, b :: 0 <= a < b < |Entries(files)| ==> Entries(files)[a].index < Entries(files)[b].index
    decreases |files|
  {
    if files != [] {
      var n := |files| - 1;
      EntriesOrdered(files[..n]);
      EntriesSound(files[..n]);
    }
  }

  /** Every kept file has its entry. */
  lemma {:induction false} EntriesComplete(files: seq<ChunkFile>)
    ensures forall i :: 0 <= i < |files| && Kept(files[i]) ==> EntryOf(files[i], i) in Entries(files)
    decreases |files|
  {
    if files != [] {
      var n := |files| - 1;
      var prev := Entries(files[..n]);
      EntriesComplete(files[..n]);
      var all := Entries(files);
      assert all == prev + (if Kept(files[n]) then [EntryOf(files[n], n)] else []);
      forall i | 0 <= i < |files| && Kept(files[i])
        ensures EntryOf(files[i], i) in all
      {
        if i < n {
          assert files[..n][i] == files[i];
          assert EntryOf(files[i], i) in prev;
        } else {
          assert all[|all| - 1] == EntryOf(files[n], n);
        }
      }
    }
  }

  /** The ids given to the stored documents are all different. */
  lemma IdsDistinct(files: seq<ChunkFile>)
    ensures forall a, b :: 0 <= a < b < |Ids(Entries(files))| ==> Ids(Entries(files))[a] != Ids(Entries(files))[b]
  {
    EntriesSound(files);
    EntriesOrdered(files);
    var es := Entries(files);
    forall a, b | 0 <= a < b < |es| ensures Id(es[a].file.stem, es[a].index) != Id(es[b].file.stem, es[b].index) {
      if Id(es[a].file.stem, es[a].index) == Id(es[b].file.stem, es[b].index) {
        IdInjective(es[a].file.stem, es[a].index, es[b].file.stem, es[b].index);
      }
    }
  }

  function Documents(es: seq<Entry>): (r: seq<string>)
    ensures |r| == |es| && forall k :: 0 <= k < |es| ==> r[k] == es[k].file.content
  {
    seq(|es|, k requires 0 <= k < |es| => es[k].file.content)
  }

  function Metadatas(es: seq<Entry>): (r: seq<ChunkMetadata>)
    ensures |r| == |es| && forall k :: 0 <= k < |es| ==> r[k] == MetadataOf(es[k].file)
  {
    seq(|es|, k requires 0 <= k < |es| => MetadataOf(es[k].file))
  }

  function Ids(es: seq<Entry>): (r: seq<string>)
    ensures |r| == |es| && forall k :: 0 <= k < |es| ==> r[k] == Id(es[k].file.stem, es[k].index)
  {
    seq(|es|, k requires 0 <= k < |es| => Id(es[k].file.stem, es[k].index))
  }

  /** The `b`-th batch of `s`: positions `[b * 100, b * 100 + 100)`, cut at the end. */
  function Batch<T>(s: seq<T>, b: nat): (r: seq<T>)
    ensures |r| <= BatchSize
    ensures b * BatchSize < |s| ==> r != []
  {
    var lo := if b * BatchSize <= |s| then b * BatchSize else |s|;
    var hi := if b * BatchSize + BatchSize <= |s| then b * BatchSize + BatchSize else |s|;
    s[lo..hi]
  }

  /** The number of batches the loop emits for `n` documents: `ceil(n / 100)`. */
  function BatchCount(n: nat): nat
  {
    (n + BatchSize - 1) / BatchSize
  }

  /** The first `m` batches of `s`. */
  function Batches<T>(s: seq<T>, m: nat): (r: seq<seq<T>>)
    ensures |r| == m && forall b :: 0 <= b < m ==> r[b] == Batch(s, b)
  {
    seq(m, b requires 0 <= b < m => Batch(s, b))
  }

  /** The first `m` batches, concatenated, are the first `min(100 m, |s|)` elements. */
  lemma {:induction false} BatchesConcat<T>(s: seq<T>, m: nat)
    ensures Concat(Batches(s, m)) == s[..if m * BatchSize <= |s| then m * BatchSize else |s|]
  {
    if m > 0 {
      var b := m - 1;
      var prev, last := Batches(s, b), Batch(s, b);
      var lo := if b * BatchSize <= |s| then b * BatchSize else |s|;
      var hi := if m * BatchSize <= |s| then m * BatchSize else |s|;
      assert Concat(Batches(s, m)) == Concat(prev) + last by {
        BatchesSnoc(s, b);
        ConcatSnoc(prev, last);
      }
      assert Concat(prev) == s[..lo] by {
        BatchesConcat(s, b);
      }
      assert last == s[lo..hi] by {
        assert b * BatchSize + BatchSize == m * BatchSize;
      }
      assert s[..lo] + s[lo..hi] == s[..hi];
    }
  }

  lemma BatchesSnoc<T>(s: seq<T>, m: nat)
    ensures Batches(s, m + 1) == Batches(s, m) + [Batch(s, m)]
  {
  }

  /** The batches together hold every element exactly once, in order, and
      none of them is empty. */
  lemma BatchesCover<T>(s: seq<T>)
    ensures Concat(Batches(s, BatchCount(|s|))) == s
    ensures forall b :: 0 <= b < BatchCount(|s|) ==> Batch(s, b) != []
  {
    var m := BatchCount(|s|);
    BatchesConcat(s, m);
    assert m * BatchSize >= |s|;
    assert s[..|s|] == s;
    assert forall b :: 0 <= b < m ==> b * BatchSize < |s|;
  }

  /** The arguments of one `collection.upsert` call. */
  datatype Upsert = Upsert(documents: seq<string>, metadatas: seq<ChunkMetadata>, ids: seq<string>)

  /** `ingest_policies`: the three parallel lists built from the files, and
      the batches handed to the store. */
  method Ingest(files: seq<ChunkFile>)
    returns (documents: seq<string>, metadatas: seq<ChunkMetadata>, ids: seq<string>, batches: seq<Upsert>)
    ensures documents == Documents(Entries(files))
    ensures metadatas == Metadatas(Entries(files))
    ensures ids == Ids(Entries(files))
    ensures |metadatas| == |documents| && |ids| == |documents|
    ensures |batches| == BatchCount(|documents|)
    ensures forall b :: 0 <= b < |batches| ==>
      batches[b] == Upsert(Batch(documents, b), Batch(metadatas, b), Batch(ids, b))
  {
    documents, metadatas, ids := CollectChunks(files);
    batches := MakeBatches(documents, metadatas, ids);
  }

  /** The first loop of `ingest_policies`: one entry per file that fits. */
  method CollectChunks(files: seq<ChunkFile>)
    returns (documents: seq<string>, metadatas: seq<ChunkMetadata>, ids: seq<string>)
    ensures documents == Documents(Entries(files))
    ensures metadatas == Metadatas(Entries(files))
    ensures ids == Ids(Entries(files))
  {
    documents, metadatas, ids := [], [], [];
    var i := 0;
    while i < |files|
      invariant 0 <= i <= |files|
      invariant documents == Documents(Entries(files[..i]))
      invariant metadatas == Metadatas(Entries(files[..i]))
      invariant ids == Ids(Entries(files[..i]))
    {
      var f := files[i];
      CollectStep(files, i);
      if Utf8Length(f.content) <= MaxDocumentBytes {
        var md := ChunkMetadata(FileName(f), ReplaceChar(RawPolicyName(f.stem), '_', ' '), ChunkNumber(f.stem));
        documents := documents + [f.content];
        metadatas := metadatas + [md];
        ids := ids + [f.stem + "_" + NatToString(i)];
      }
      i := i + 1;
    }
    assert files[..|files|] == files;
  }

  /** One turn of that loop: the entries of one more file. */
  lemma CollectStep(files: seq<ChunkFile>, i: nat)
    requires i < |files|
    ensures var es, f := Entries(files[..i]), files[i];
      if Kept(f) then
        Documents(Entries(files[..i + 1])) == Documents(es) + [f.content] &&
        Metadatas(Entries(files[..i + 1])) == Metadatas(es) + [MetadataOf(f)] &&
        Ids(Entries(files[..i + 1])) == Ids(es) + [Id(f.stem, i)]
      else Entries(files[..i + 1]) == es
  {
    assert files[..i + 1] == files[..i] + [files[i]];
    EntriesSnoc(files[..i], files[i]);
    ProjectSnoc(Entries(files[..i]), EntryOf(files[i], i));
  }

  lemma ProjectSnoc(es: seq<Entry>, e: Entry)
    ensures Documents(es + [e]) == Documents(es) + [e.file.content]
    ensures Metadatas(es + [e]) == Metadatas(es) + [MetadataOf(e.file)]
    ensures Ids(es + [e]) == Ids(es) + [Id(e.file.stem, e.index)]
  {
  }

  /** The second loop of `ingest_policies`: consecutive slices of 100. */
  method MakeBatches(documents: seq<string>, metadatas: seq<ChunkMetadata>, ids: seq<string>)
    returns (batches: seq<Upsert>)
    requires |metadatas| == |documents| && |ids| == |documents|
    ensures |batches| == BatchCount(|documents|)
    ensures forall b :: 0 <= b < |batches| ==>
      batches[b] == Upsert(Batch(documents, b), Batch(metadatas, b), Batch(ids, b))
  {
    batches := [];
    var start := 0;
    while start < |documents|
      invariant start == |batches| * BatchSize
      invariant (|batches| - 1) * BatchSize < |documents|
      invariant forall b :: 0 <= b < |batches| ==>
        batches[b] == Upsert(Batch(documents, b), Batch(metadatas, b), Batch(ids, b))
    {
      var end := if start + BatchSize <= |documents| then start + BatchSize else |documents|;
      batches := batches + [Upsert(documents[start..end], metadatas[start..end], ids[start..end])];
      start := start + BatchSize;
    }
  }
}
