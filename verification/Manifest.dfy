/** The immutable description of a file: building, validating, printing and loading it (src/manifest.cpp). */
module Manifests {
  import opened Base
  import opened Text
  import opened Crypto
  import opened Geometry

  const MAX_CHUNK_COUNT: nat := 1_000_000
  const MAGIC := "SWARMSYNC_MANIFEST_V1"

  predicate SafeFileName(name: string) {
    name != "" && name != "." && name != ".." && '/' !in name && '\\' !in name && (0 as char) !in name
  }

  datatype Manifest = Manifest(
    fileName: string, fileSize: nat, chunkSize: nat, fileHash: string, chunkHashes: seq<string>)
  {
    function Shape(): Layout {
      Layout(fileSize, chunkSize)
    }

    /** The ranges the C++ field types impose, then everything `validate` checks. */
    predicate Valid() {
      && IsBytes(fileName) && fileSize <= MAX_UINT64
      && SafeFileName(fileName)
      && 0 < chunkSize <= MAX_CHUNK_BYTES
      && IsSha256Hex(fileHash)
      && Shape().Count() <= MAX_CHUNK_COUNT
      && |chunkHashes| == Shape().Count()
      && forall i | 0 <= i < |chunkHashes| :: IsSha256Hex(chunkHashes[i])
    }
  }

  const MAX_OFF_T: nat := 0x7FFF_FFFF_FFFF_FFFF

  /** A valid manifest describes at most 4 TiB, so the code's refusals of offsets a platform cannot seek to are dead. */
  lemma OffsetsArePlatformOffsets(m: Manifest, i: nat)
    requires m.Valid() && i < |m.chunkHashes|
    ensures m.Shape().Offset(i) + m.Shape().Length(i) <= m.fileSize <= MAX_OFF_T
  {
    var l := m.Shape();
    ChunkInFile(l, i);
    CountBrackets(l);
    MulMonotone(l.Count(), MAX_CHUNK_COUNT, l.chunk);
    MulMonotone(l.chunk, MAX_CHUNK_BYTES, MAX_CHUNK_COUNT);
  }

  /** The bytes of chunk `i` in `file` are the ones the manifest names. */
  ghost predicate Matches(m: Manifest, hash: Hash, file: string, i: nat)
    requires m.Valid() && |file| == m.fileSize
  {
    i < |m.chunkHashes| && hash(Slice(m.Shape(), file, i)) == m.chunkHashes[i]
  }

  // ---------------------------------------------------------------- building from a file

  function SliceHashes(l: Layout, content: string, hash: Hash, n: nat): (hashes: seq<string>)
    requires l.Valid() && |content| == l.size && n <= l.Count()
    ensures |hashes| == n
    ensures forall i | 0 <= i < n :: hashes[i] == hash(Slice(l, content, i))
  {
    if n == 0 then [] else SliceHashes(l, content, hash, n - 1) + [hash(Slice(l, content, n - 1))]
  }

  /** The manifest that describes `content` chunk by chunk. */
  function Describe(name: string, content: string, chunk: nat, hash: Hash): Manifest
    requires Layout(|content|, chunk).Valid()
  {
    var l := Layout(|content|, chunk);
    Manifest(name, |content|, chunk, hash(content), SliceHashes(l, content, hash, l.Count()))
  }

  /**
   `from_file`: fixed-size reads until end of file.  A read of fewer than `chunk` bytes clears the
   stream's good state; a read of none pushes nothing.
   */
  method FromFile(name: string, content: string, chunk: nat, hash: Hash) returns (r: Result<Manifest>)
    requires IsBytes(name) && |content| <= MAX_UINT64 && ProducesDigests(hash)
    ensures r.Ok? <==> 0 < chunk <= MAX_CHUNK_BYTES && SafeFileName(name)
                       && Layout(|content|, chunk).Count() <= MAX_CHUNK_COUNT
    ensures r.Ok? ==> r.value.Valid() && r.value == Describe(name, content, chunk, hash)
  {
    if chunk == 0 || chunk > MAX_CHUNK_BYTES {
      return Err;
    }
    var l := Layout(|content|, chunk);
    if l.Count() > MAX_CHUNK_COUNT {
      return Err;
    }
    var hashes: seq<string> := [];
    var position, good := 0, true;
    while good
      invariant |hashes| <= l.Count() && hashes == SliceHashes(l, content, hash, |hashes|)
      invariant position <= l.size
      invariant good ==> position == l.Offset(|hashes|)
      invariant !good ==> |hashes| == l.Count()
      decreases good, l.size - position
    {
      var i := |hashes|;
      NextRead(l, i);
      var count := Min(chunk, |content| - position);
      if count > 0 {
        assert content[position..position + count] == Slice(l, content, i);
        hashes := hashes + [hash(content[position..position + count])];
      }
      position := position + count;
      good := count == chunk;
    }
    var m := Manifest(name, |content|, chunk, hash(content), hashes);
    if !m.Valid() {
      return Err;
    }
    return Ok(m);
  }

  /** Where the read that would produce chunk `i` stops, and whether there is such a chunk. */
  lemma NextRead(l: Layout, i: nat)
    requires l.Valid() && i <= l.Count() && l.Offset(i) <= l.size
    ensures i < l.Count() <==> l.Offset(i) < l.size
    ensures l.Length(i) == l.chunk ==> l.Offset(i) + l.chunk == l.Offset(i + 1)
    ensures i < l.Count() && l.Length(i) < l.chunk ==> i + 1 == l.Count()
  {
    if i < l.Count() {
      ChunkInFile(l, i);
      ChunksTouch(l, i);
    } else if l.size > 0 {
      CountBrackets(l);
    }
    assert (i + 1) * l.chunk == i * l.chunk + l.chunk;
  }

  // ---------------------------------------------------------------- printing

  /** The five header fields as they stand in the text. */
  datatype Header = Header(fileName: string, fileSize: nat, chunkSize: nat, fileHash: string, declared: nat)

  predicate PrintableHeader(h: Header) {
    && IsBytes(h.fileName) && h.fileSize <= MAX_UINT64 && h.chunkSize <= MAX_UINT32
    && PlainLine(h.fileHash) && h.declared <= MAX_UINT32
  }

  function HeaderText(h: Header): string
    requires IsBytes(h.fileName)
  {
    MAGIC + "\n" + (FieldLine("file_name", HexOf(h.fileName)) + (FieldLine("file_size", Digits(h.fileSize))
    + (FieldLine("chunk_size", Digits(h.chunkSize)) + (FieldLine("file_sha256", h.fileHash)
    + FieldLine("chunk_count", Digits(h.declared))))))
  }

  function EntryText(i: nat, hash: string): string {
    Digits(i) + "," + hash
  }

  /** Chunk lines with the given values, in order. */
  function ChunkLines(entries: seq<string>): string {
    PrintMany(ChunkLine, entries)
  }

  function Entries(hashes: seq<string>, from: nat): (entries: seq<string>)
    requires from <= |hashes|
    ensures |entries| == |hashes| - from
    decreases |hashes| - from
  {
    if from == |hashes| then [] else [EntryText(from, hashes[from])] + Entries(hashes, from + 1)
  }

  function HeaderOf(m: Manifest): Header {
    Header(m.fileName, m.fileSize, m.chunkSize, m.fileHash, |m.chunkHashes|)
  }

  function Serialize(m: Manifest): string
    requires m.Valid()
  {
    HeaderText(HeaderOf(m)) + ChunkLines(Entries(m.chunkHashes, 0))
  }

  /** `serialize` refuses an invalid manifest and otherwise prints it line by line. */
  method SerializeManifest(m: Manifest) returns (r: Result<string>)
    ensures r.Ok? <==> m.Valid()
    ensures r.Ok? ==> r.value == Serialize(m)
  {
    if !m.Valid() {
      return Err;
    }
    var name := HexEncode(m.fileName);
    var output := MAGIC + "\n" + (FieldLine("file_name", name) + (FieldLine("file_size", Digits(m.fileSize))
                  + (FieldLine("chunk_size", Digits(m.chunkSize)) + (FieldLine("file_sha256", m.fileHash)
                  + FieldLine("chunk_count", Digits(|m.chunkHashes|))))));
    for i := 0 to |m.chunkHashes|
      invariant output + ChunkLines(Entries(m.chunkHashes, i)) == Serialize(m)
    {
      var line := ChunkLine(EntryText(i, m.chunkHashes[i]));
      assert Entries(m.chunkHashes, i)[1..] == Entries(m.chunkHashes, i + 1);
      assert output + (line + ChunkLines(Entries(m.chunkHashes, i + 1)))
          == output + line + ChunkLines(Entries(m.chunkHashes, i + 1));
      output := output + line;
    }
    assert output + "" == output;
    return Ok(output);
  }

  function SwarmId(m: Manifest, hash: Hash): string
    requires m.Valid()
  {
    hash(Serialize(m))
  }

  // ---------------------------------------------------------------- loading

  function ReadName(text: string): Result<(string, string)> {
    var (magic, body) :- ReadTextLine(text);
    if magic != MAGIC then Err else
    var (nameHex, rest) :- ReadField(body, "file_name");
    var name :- FromHex(nameHex);
    Ok((name, rest))
  }

  function ReadHeader(text: string): Result<(Header, string)> {
    var (name, t1) :- ReadName(text);
    var (size, t2) :- ReadNumberField(t1, "file_size", MAX_UINT64);
    var (chunk, t3) :- ReadNumberField(t2, "chunk_size", MAX_UINT32);
    var (fileHash, t4) :- ReadField(t3, "file_sha256");
    var (count, t5) :- ReadNumberField(t4, "chunk_count", MAX_UINT32);
    Ok((Header(name, size, chunk, fileHash, count), t5))
  }

  function ReadChunkLine(text: string): Result<(string, string)> {
    ReadField(text, "chunk")
  }

  function ChunkLine(entry: string): string {
    FieldLine("chunk", entry)
  }

  /** The values of the next `n` chunk lines. */
  function ReadEntries(text: string, n: nat): Result<(seq<string>, string)> {
    ReadMany(ReadChunkLine, text, n)
  }

  function ParseEntry(entry: string): Result<(nat, string)> {
    var comma := IndexOf(entry, ',');
    if comma == |entry| then Err else
      var index :- ParseNumber(entry[..comma], MAX_UINT32);
      Ok((index, entry[comma + 1..]))
  }

  type ChunkMap = map<nat, string>

  /** One step of the loading loop: parse the entry and refuse a repeated index. */
  function InsertEntry(entry: string, chunks: Result<ChunkMap>): Result<ChunkMap> {
    var m :- chunks;
    var (index, hash) :- ParseEntry(entry);
    if index in m then Err else Ok(m[index := hash])
  }

  function Collect(entries: seq<string>): Result<ChunkMap> {
    if entries == [] then Ok(map[]) else InsertEntry(entries[0], Collect(entries[1..]))
  }

  predicate Contiguous(chunks: ChunkMap, n: nat) {
    forall i: nat | i < n :: i in chunks
  }

  function Aligned(chunks: ChunkMap, n: nat): (hashes: seq<string>)
    requires Contiguous(chunks, n)
    ensures |hashes| == n && forall i | 0 <= i < n :: hashes[i] == chunks[i]
  {
    seq(n, (i: int) requires 0 <= i < n => chunks[i])
  }

  /** What remains after the lines have been read: collect, require the end of the text, line up, validate. */
  function Finish(h: Header, entries: seq<string>, remainder: string): (r: Result<Manifest>)
    ensures r.Ok? ==> r.value.Valid()
  {
    var chunks :- Collect(entries);
    if remainder != "" || !Contiguous(chunks, h.declared) then Err else
      var m := Manifest(h.fileName, h.fileSize, h.chunkSize, h.fileHash, Aligned(chunks, h.declared));
      if m.Valid() then Ok(m) else Err
  }

  function LoadBody(h: Header, body: string): (r: Result<Manifest>)
    ensures r.Ok? ==> r.value.Valid()
  {
    if h.declared > MAX_CHUNK_COUNT then Err else
      var (entries, remainder) :- ReadEntries(body, h.declared);
      Finish(h, entries, remainder)
  }

  /** `load`: whatever it returns has passed `validate`. */
  function Load(text: string): (r: Result<Manifest>)
    ensures r.Ok? ==> r.value.Valid()
  {
    var (h, body) :- ReadHeader(text);
    LoadBody(h, body)
  }

  // ---------------------------------------------------------------- the order of chunk lines does not matter

  lemma InsertCommutes(a: string, b: string, chunks: Result<ChunkMap>)
    ensures InsertEntry(a, InsertEntry(b, chunks)) == InsertEntry(b, InsertEntry(a, chunks))
  {
    if chunks.Ok? && ParseEntry(a).Ok? && ParseEntry(b).Ok? {
      var (i, x) := ParseEntry(a).value;
      var (j, y) := ParseEntry(b).value;
      if i != j {
        assert chunks.value[i := x][j := y] == chunks.value[j := y][i := x];
      }
    }
  }

  /** Any entry can be moved to the front. */
  lemma {:induction false} CollectFromAnywhere(entries: seq<string>, k: nat)
    requires k < |entries|
    ensures Collect(entries) == InsertEntry(entries[k], Collect(entries[..k] + entries[k + 1..]))
  {
    if k == 0 {
      assert entries[..0] + entries[1..] == entries[1..];
    } else {
      var tail := entries[1..];
      CollectFromAnywhere(tail, k - 1);
      var without := entries[..k] + entries[k + 1..];
      assert without[1..] == tail[..k - 1] + tail[k..];
      InsertCommutes(entries[0], entries[k], Collect(without[1..]));
    }
  }

  lemma WithoutOne(entries: seq<string>, k: nat)
    requires k < |entries|
    ensures multiset(entries[..k] + entries[k + 1..]) == multiset(entries) - multiset{entries[k]}
  {
    assert entries == entries[..k] + [entries[k]] + entries[k + 1..];
  }

  lemma SameEntry(a: seq<string>, b: seq<string>) returns (k: nat)
    requires a != [] && multiset(a) == multiset(b)
    ensures k < |b| && b[k] == a[0]
  {
    assert a[0] in multiset(b);
    k :| k < |b| && b[k] == a[0];
  }

  lemma {:induction false} CollectIgnoresOrder(a: seq<string>, b: seq<string>)
    requires multiset(a) == multiset(b)
    ensures Collect(a) == Collect(b)
  {
    if a == [] {
      assert |multiset(b)| == |b|;
    } else {
      var k := SameEntry(a, b);
      WithoutOne(a, 0);
      WithoutOne(b, k);
      assert a[..0] + a[1..] == a[1..];
      CollectIgnoresOrder(a[1..], b[..k] + b[k + 1..]);
      CollectFromAnywhere(b, k);
    }
  }

  lemma {:induction false} CollectFailureStays(a: seq<string>, b: seq<string>)
    requires Collect(a).Err?
    ensures Collect(a + b).Err?
  {
    if a != [] {
      assert (a + b)[1..] == a[1..] + b;
      if Collect(a[1..]).Err? {
        CollectFailureStays(a[1..], b);
      } else {
        CollectGrows(a[1..], b);
      }
    }
  }

  lemma {:induction false} CollectGrows(a: seq<string>, b: seq<string>)
    requires Collect(a).Ok?
    ensures Collect(a + b).Ok? ==> Collect(a).value.Keys <= Collect(a + b).value.Keys
  {
    if a != [] {
      assert (a + b)[1..] == a[1..] + b;
      CollectGrows(a[1..], b);
    } else {
      assert a + b == b;
    }
  }

  lemma CollectAppend(entries: seq<string>, entry: string)
    ensures Collect(entries + [entry]) == InsertEntry(entry, Collect(entries))
  {
    var all := entries + [entry];
    CollectFromAnywhere(all, |entries|);
    assert all[..|entries|] + all[|entries| + 1..] == entries;
  }

  lemma ChunkLineReads(entries: seq<string>)
    requires forall e | e in entries :: PlainLine(e)
    ensures forall e | e in entries :: Inverts(ReadChunkLine, ChunkLine, e)
  {
    forall e, rest: string | e in entries
      ensures ReadChunkLine(ChunkLine(e) + rest) == Ok((e, rest))
    {
      ReadFieldOf("chunk", e, rest);
    }
  }

  lemma LeftoverLines(entries: seq<string>, n: nat)
    requires n < |entries|
    ensures ChunkLines(entries[n..]) != ""
  {
  }

  /** How loading arbitrary chunk lines comes out, in terms of the lines alone. */
  lemma LoadBodyOfLines(h: Header, entries: seq<string>)
    requires forall e | e in entries :: PlainLine(e)
    ensures LoadBody(h, ChunkLines(entries))
         == if h.declared > MAX_CHUNK_COUNT || h.declared != |entries| then Err else Finish(h, entries, "")
  {
    ChunkLineReads(entries);
    if h.declared > |entries| {
      ReadTooMany(ReadChunkLine, ChunkLine, entries, h.declared);
    } else {
      ReadPrinted(ReadChunkLine, ChunkLine, entries, h.declared);
      if h.declared < |entries| {
        LeftoverLines(entries, h.declared);
      } else {
        assert entries[..h.declared] == entries;
        assert entries[h.declared..] == [];
      }
    }
  }

  lemma LoadAfterHeader(h: Header, body: string)
    requires PrintableHeader(h)
    ensures Load(HeaderText(h) + body) == LoadBody(h, body)
  {
    ReadHeaderOf(h, body);
  }

  /** Loading gives the same outcome, manifest or refusal, for every order of the same chunk lines. */
  lemma LoadIgnoresLineOrder(h: Header, a: seq<string>, b: seq<string>)
    requires PrintableHeader(h)
    requires multiset(a) == multiset(b)
    requires forall e | e in a :: PlainLine(e)
    ensures Load(HeaderText(h) + ChunkLines(a)) == Load(HeaderText(h) + ChunkLines(b))
  {
    assert |multiset(a)| == |a| && |multiset(b)| == |b|;
    forall e | e in b ensures PlainLine(e) {
      assert e in multiset(b);
    }
    LoadAfterHeader(h, ChunkLines(a));
    LoadAfterHeader(h, ChunkLines(b));
    LoadBodyOfLines(h, a);
    LoadBodyOfLines(h, b);
    CollectIgnoresOrder(a, b);
  }

  // ---------------------------------------------------------------- no line is dropped

  /** The collected map records every line read: all parse, no two share an index, and there is one key per line. */
  lemma {:induction false} CollectRecordsAll(entries: seq<string>)
    requires Collect(entries).Ok?
    ensures |Collect(entries).value| == |entries|
    ensures forall k | 0 <= k < |entries| ::
              && ParseEntry(entries[k]).Ok?
              && ParseEntry(entries[k]).value.0 in Collect(entries).value
              && Collect(entries).value[ParseEntry(entries[k]).value.0] == ParseEntry(entries[k]).value.1
  {
    if entries != [] {
      CollectRecordsAll(entries[1..]);
      forall k | 0 <= k < |entries|
        ensures ParseEntry(entries[k]).Ok?
        ensures ParseEntry(entries[k]).value.0 in Collect(entries).value
        ensures Collect(entries).value[ParseEntry(entries[k]).value.0] == ParseEntry(entries[k]).value.1
      {
        assert k > 0 ==> entries[k] == entries[1..][k - 1];
      }
    }
  }

  /** Pigeonhole: `n` keys that include 0 .. n-1 are exactly 0 .. n-1. */
  lemma KeysAreExactlyTheRange(keys: set<nat>, n: nat)
    requires |keys| == n && forall i: nat | i < n :: i in keys
    ensures keys == Range(n)
  {
    var range := Range(n);
    assert |keys - range| == |keys| - |range| by {
      assert keys == (keys - range) + range;
    }
  }

  /** A loaded manifest carries every chunk line of its text at the index the line names. */
  lemma LoadKeepsEveryLine(text: string)
    requires Load(text).Ok?
    ensures var (h, body) := ReadHeader(text).value;
            var entries := ReadEntries(body, h.declared).value.0;
            && |Load(text).value.chunkHashes| == |entries|
            && forall k | 0 <= k < |entries| ::
                 && ParseEntry(entries[k]).Ok?
                 && ParseEntry(entries[k]).value.0 < |entries|
                 && Load(text).value.chunkHashes[ParseEntry(entries[k]).value.0] == ParseEntry(entries[k]).value.1
  {
    var (h, body) := ReadHeader(text).value;
    var entries := ReadEntries(body, h.declared).value.0;
    CollectRecordsAll(entries);
    var chunks := Collect(entries).value;
    KeysAreExactlyTheRange(chunks.Keys, h.declared);
    forall k | 0 <= k < |entries|
      ensures ParseEntry(entries[k]).value.0 < |entries|
    {
      assert ParseEntry(entries[k]).value.0 in chunks.Keys;
    }
  }

  // ---------------------------------------------------------------- round trip

  lemma HexPlain(s: string)
    requires IsBytes(s)
    ensures PlainLine(HexOf(s))
  {
  }

  lemma ReadNameOf(name: string, rest: string)
    requires IsBytes(name)
    ensures ReadName(MAGIC + "\n" + (FieldLine("file_name", HexOf(name)) + rest)) == Ok((name, rest))
  {
    ReadTextLineOfLine(MAGIC, FieldLine("file_name", HexOf(name)) + rest);
    HexPlain(name);
    ReadFieldOf("file_name", HexOf(name), rest);
    HexRoundTrip(name);
  }

  lemma Regroup(m: string, a: string, b: string, c: string, d: string, e: string, rest: string)
    ensures m + "\n" + (a + (b + (c + (d + e)))) + rest == m + "\n" + (a + (b + (c + (d + (e + rest)))))
  {
    assert d + e + rest == d + (e + rest);
    assert c + (d + e) + rest == c + (d + e + rest);
    assert b + (c + (d + e)) + rest == b + (c + (d + e) + rest);
    assert a + (b + (c + (d + e))) + rest == a + (b + (c + (d + e)) + rest);
  }

  lemma FieldNamesPlain()
    ensures PlainLine("file_size") && PlainLine("chunk_size") && PlainLine("file_sha256") && PlainLine("chunk_count")
  {
  }

  lemma ReadHeaderOf(h: Header, rest: string)
    requires PrintableHeader(h)
    ensures ReadHeader(HeaderText(h) + rest) == Ok((h, rest))
  {
    FieldNamesPlain();
    var name := FieldLine("file_name", HexOf(h.fileName));
    var size := FieldLine("file_size", Digits(h.fileSize));
    var chunk := FieldLine("chunk_size", Digits(h.chunkSize));
    var fileHash := FieldLine("file_sha256", h.fileHash);
    var count := FieldLine("chunk_count", Digits(h.declared));
    Regroup(MAGIC, name, size, chunk, fileHash, count, rest);
    ReadNameOf(h.fileName, size + (chunk + (fileHash + (count + rest))));
    ReadNumberFieldOf("file_size", h.fileSize, MAX_UINT64, chunk + (fileHash + (count + rest)));
    ReadNumberFieldOf("chunk_size", h.chunkSize, MAX_UINT32, fileHash + (count + rest));
    ReadFieldOf("file_sha256", h.fileHash, count + rest);
    ReadNumberFieldOf("chunk_count", h.declared, MAX_UINT32, rest);
  }

  lemma ParseEntryOf(i: nat, hash: string)
    requires i <= MAX_UINT32
    ensures ParseEntry(EntryText(i, hash)) == Ok((i, hash))
  {
    var entry := EntryText(i, hash);
    DigitsPlain(i);
    assert entry[..|Digits(i)|] == Digits(i);
    IndexOfUnique(entry, ',', |Digits(i)|);
    assert entry[|Digits(i)| + 1..] == hash;
    ParseOfDigits(i, MAX_UINT32);
  }

  lemma {:induction false} CollectOf(hashes: seq<string>, from: nat)
    requires from <= |hashes| <= MAX_UINT32
    ensures Collect(Entries(hashes, from)) == Ok(map i: nat | from <= i < |hashes| :: hashes[i])
    decreases |hashes| - from
  {
    if from < |hashes| {
      var entries := Entries(hashes, from);
      assert entries[1..] == Entries(hashes, from + 1);
      CollectOf(hashes, from + 1);
      ParseEntryOf(from, hashes[from]);
      assert (map i: nat | from + 1 <= i < |hashes| :: hashes[i])[from := hashes[from]]
          == map i: nat | from <= i < |hashes| :: hashes[i];
    }
  }

  lemma {:induction false} EntriesPlain(hashes: seq<string>, from: nat)
    requires from <= |hashes|
    requires forall i | 0 <= i < |hashes| :: IsSha256Hex(hashes[i])
    ensures forall e | e in Entries(hashes, from) :: PlainLine(e)
    decreases |hashes| - from
  {
    if from < |hashes| {
      DigitsPlain(from);
      EntriesPlain(hashes, from + 1);
    }
  }

  /** Loading undoes printing for every valid manifest. */
  lemma LoadSerialize(m: Manifest)
    requires m.Valid()
    ensures Load(Serialize(m)) == Ok(m)
  {
    var h := HeaderOf(m);
    var entries := Entries(m.chunkHashes, 0);
    EntriesPlain(m.chunkHashes, 0);
    LoadAfterHeader(h, ChunkLines(entries));
    LoadBodyOfLines(h, entries);
    CollectOf(m.chunkHashes, 0);
    var chunks := Collect(entries).value;
    assert Aligned(chunks, h.declared) == m.chunkHashes;
  }

  /** A manifest that loads is valid, and printing it again gives a text that loads as the same manifest. */
  lemma LoadedReprints(text: string)
    requires Load(text).Ok?
    ensures Load(text).value.Valid() && Load(Serialize(Load(text).value)) == Load(text)
  {
    LoadSerialize(Load(text).value);
  }

  lemma ChildOf(directory: string, name: string)
    requires '/' !in name
    ensures Split(directory + "/" + name, '/') == Split(directory, '/') + [name]
  {
    SplitAppend(directory, '/', name);
    assert directory + "/" + name == directory + ['/'] + name;
  }

  /** The files of a valid manifest, and so of every one that loads, are direct children of the output directory. */
  lemma StaysInDirectory(m: Manifest, directory: string)
    requires m.Valid()
    ensures m.fileName != "" && m.fileName != "." && m.fileName != ".."
    ensures '/' !in m.fileName && '\\' !in m.fileName && '\0' !in m.fileName
    ensures Split(directory + "/" + m.fileName, '/') == Split(directory, '/') + [m.fileName]
    ensures Split(directory + "/" + (m.fileName + ".part"), '/') == Split(directory, '/') + [m.fileName + ".part"]
  {
    ChildOf(directory, m.fileName);
    ChildOf(directory, m.fileName + ".part");
  }

  /** Anything after the last chunk line is refused. */
  lemma TrailingRefused(m: Manifest, extra: string)
    requires m.Valid() && extra != ""
    ensures Load(Serialize(m) + extra).Err?
  {
    var h, entries := HeaderOf(m), Entries(m.chunkHashes, 0);
    EntriesPlain(m.chunkHashes, 0);
    assert Serialize(m) + extra == HeaderText(h) + (ChunkLines(entries) + extra);
    LoadAfterHeader(h, ChunkLines(entries) + extra);
    TrailingBodyRefused(h, entries, extra);
  }

  lemma TrailingBodyRefused(h: Header, entries: seq<string>, extra: string)
    requires (forall e | e in entries :: PlainLine(e)) && h.declared == |entries| && extra != ""
    ensures LoadBody(h, ChunkLines(entries) + extra).Err?
  {
    ChunkLineReads(entries);
    ReadPrintedThen(ReadChunkLine, ChunkLine, entries, extra);
  }

  /** Two valid manifests with the same swarm id are the same manifest, unless the two texts collide. */
  lemma SwarmIdIdentifiesManifest(a: Manifest, b: Manifest, hash: Hash)
    requires a.Valid() && b.Valid()
    requires hash(Serialize(a)) == hash(Serialize(b)) ==> Serialize(a) == Serialize(b)
    ensures SwarmId(a, hash) == SwarmId(b, hash) <==> a == b
  {
    LoadSerialize(a);
    LoadSerialize(b);
  }

  // ---------------------------------------------------------------- the loading loop

  ghost predicate Continues(start: string, declared: nat, entries: seq<string>, rest: string)
    requires |entries| <= declared
  {
    ReadEntries(start, declared)
    == match ReadEntries(rest, declared - |entries|)
       case Ok((more, remainder)) => Ok((entries + more, remainder))
       case Err => Err
  }

  lemma ContinuesFromStart(start: string, declared: nat)
    ensures Continues(start, declared, [], start)
  {
    var all := ReadEntries(start, declared);
    if all.Ok? {
      assert [] + all.value.0 == all.value.0;
    }
  }

  lemma ContinuesByOne(start: string, declared: nat, entries: seq<string>, rest: string)
    requires |entries| < declared && Continues(start, declared, entries, rest)
    requires ReadChunkLine(rest).Ok?
    ensures Continues(start, declared, entries + [ReadChunkLine(rest).value.0], ReadChunkLine(rest).value.1)
  {
    var (entry, after) := ReadChunkLine(rest).value;
    var left := ReadEntries(after, declared - |entries| - 1);
    if left.Ok? {
      assert entries + ([entry] + left.value.0) == entries + [entry] + left.value.0;
    }
  }

  /** Once an entry is refused no further line can help. */
  lemma RefusedForGood(body: string, declared: nat, entries: seq<string>, rest: string)
    requires |entries| <= declared && Continues(body, declared, entries, rest)
    requires Collect(entries).Err?
    ensures ReadEntries(body, declared).Ok? ==> Collect(ReadEntries(body, declared).value.0).Err?
  {
    var more := ReadEntries(rest, declared - |entries|);
    if more.Ok? {
      CollectFailureStays(entries, more.value.0);
    }
  }

  /** The loop over the declared chunk lines: one map insertion per line. */
  method ReadChunkMap(body: string, declared: nat) returns (r: Result<(ChunkMap, string)>)
    ensures r == match ReadEntries(body, declared)
                 case Ok((entries, remainder)) =>
                   (match Collect(entries) case Ok(chunks) => Ok((chunks, remainder)) case Err => Err)
                 case Err => Err
  {
    var chunks: ChunkMap := map[];
    var rest := body;
    ghost var entries: seq<string> := [];
    ContinuesFromStart(body, declared);
    for line := 0 to declared
      invariant |entries| == line && Collect(entries) == Ok(chunks)
      invariant Continues(body, declared, entries, rest)
    {
      var field :- ReadChunkLine(rest);
      var (entry, after) := field;
      var parsed := ParseEntry(entry);
      CollectAppend(entries, entry);
      ContinuesByOne(body, declared, entries, rest);
      entries, rest := entries + [entry], after;
      if parsed.Err? || parsed.value.0 in chunks {
        RefusedForGood(body, declared, entries, rest);
        return Err;
      }
      chunks := chunks[parsed.value.0 := parsed.value.1];
    }
    assert entries + [] == entries;
    return Ok((chunks, rest));
  }

  /** The contiguity scan. */
  method LineUp(chunks: ChunkMap, n: nat) returns (r: Result<seq<string>>)
    ensures r.Ok? <==> Contiguous(chunks, n)
    ensures r.Ok? ==> r.value == Aligned(chunks, n)
  {
    var hashes: seq<string> := [];
    for index := 0 to n
      invariant |hashes| == index
      invariant forall i: nat | i < index :: i in chunks && hashes[i] == chunks[i]
    {
      if index !in chunks {
        return Err;
      }
      hashes := hashes + [chunks[index]];
    }
    return Ok(hashes);
  }

  method LoadChunks(h: Header, body: string) returns (r: Result<Manifest>)
    ensures r == LoadBody(h, body)
  {
    if h.declared > MAX_CHUNK_COUNT {
      return Err;
    }
    var collected :- ReadChunkMap(body, h.declared);
    var (chunks, rest) := collected;
    if rest != "" {
      return Err;
    }
    var hashes :- LineUp(chunks, h.declared);
    var m := Manifest(h.fileName, h.fileSize, h.chunkSize, h.fileHash, hashes);
    if !m.Valid() {
      return Err;
    }
    return Ok(m);
  }

  /** `load`: the header, the chunk lines, the end of the text, the contiguity scan, validation. */
  method LoadManifest(text: string) returns (r: Result<Manifest>)
    ensures r == Load(text)
  {
    var head :- ReadHeader(text);
    r := LoadChunks(head.0, head.1);
  }
}
