/**
 * The two pure pieces of the rewards bot's helper file: the check that
 * reconciles a downloaded rewards tree with the on-chain Merkle data, and
 * the fixed-width formatter that turns key/value pairs into a chat message.
 */
module Utils {

  // ---------------------------------------------------------------------------
  // Reward-file reconciliation
  // ---------------------------------------------------------------------------

  datatype Result<T, E> = Ok(value: T) | Err(error: E)

  /** The three assertions that can reject a downloaded tree, in the order they run. */
  datatype ValidationError = RootMismatch | StaleData | FutureData

  /** The fields of the downloaded rewards document that the check reads. */
  datatype RewardsTree = RewardsTree(merkleRoot: string, endBlock: int)

  /** The on-chain Merkle data the caller passes in. */
  datatype MerkleRecord = MerkleRecord(root: string, contentHash: string, blockNumber: int)

  /** Where the document is read from: a fixed local file in test mode, an S3 object otherwise. */
  datatype Location = LocalFile(path: string) | S3Object(bucket: string, key: string)

  /** Largest allowed distance, in blocks, between the tree's end block and the on-chain block (about one day). */
  const FreshnessWindow: int := 6500

  const FilePrefix: string := "rewards-1-"
  const FileSuffix: string := ".json"
  const UploadBucket: string := "badger-json"
  const KeyPrefix: string := "rewards/"
  const TestTreePath: string := "data/rewards.json"

  function Abs(x: int): nat {
    if x < 0 then -x else x
  }

  /** A tree that agrees with the chain: same root, and tracking a block at most
      FreshnessWindow - 1 blocks before the on-chain update and never after it. */
  predicate Reconciled(tree: RewardsTree, merkle: MerkleRecord) {
    && tree.merkleRoot == merkle.root
    && 0 <= merkle.blockNumber - tree.endBlock < FreshnessWindow
  }

  /** The name of the rewards file for a content hash. */
  function PastFileName(contentHash: string): (name: string)
    ensures |name| == |FilePrefix| + |contentHash| + |FileSuffix|
    ensures name[..|FilePrefix|] == FilePrefix
    ensures name[|FilePrefix|..|name| - |FileSuffix|] == contentHash
    ensures name[|name| - |FileSuffix|..] == FileSuffix
  {
    FilePrefix + contentHash + FileSuffix
  }

  /** Distinct content hashes name distinct files. */
  lemma PastFileNameInjective(h1: string, h2: string)
    ensures PastFileName(h1) == PastFileName(h2) ==> h1 == h2
  {
  }

  /** Where `download_tree` reads a file name from. In test mode the name is ignored. */
  function DownloadLocation(fileName: string, test: bool): (loc: Location)
    ensures test ==> loc == LocalFile(TestTreePath)
    ensures !test ==> loc.S3Object? && loc.bucket == UploadBucket
    ensures !test ==> |loc.key| == |KeyPrefix| + |fileName|
    ensures !test ==> loc.key[..|KeyPrefix|] == KeyPrefix && loc.key[|KeyPrefix|..] == fileName
  {
    if test then LocalFile(TestTreePath) else S3Object(UploadBucket, KeyPrefix + fileName)
  }

  /** The checks applied to a downloaded tree, in source order; every check is skipped in test mode. */
  function ValidateTree(tree: RewardsTree, merkle: MerkleRecord, test: bool): (r: Result<RewardsTree, ValidationError>)
    ensures test ==> r == Ok(tree)
    ensures !test ==> (r.Ok? <==> Reconciled(tree, merkle))
    ensures r.Ok? ==> r.value == tree
    ensures !test && tree.merkleRoot != merkle.root ==> r == Err(RootMismatch)
    ensures !test && tree.merkleRoot == merkle.root ==>
              (r == Err(StaleData) <==>
                 (tree.endBlock <= merkle.blockNumber - FreshnessWindow ||
                  tree.endBlock >= merkle.blockNumber + FreshnessWindow))
    ensures !test && tree.merkleRoot == merkle.root ==>
              (r == Err(FutureData) <==>
                 merkle.blockNumber < tree.endBlock < merkle.blockNumber + FreshnessWindow)
  {
    if test then Ok(tree)
    else if tree.merkleRoot != merkle.root then Err(RootMismatch)
    else if Abs(tree.endBlock - merkle.blockNumber) >= FreshnessWindow then Err(StaleData)
    else if merkle.blockNumber < tree.endBlock then Err(FutureData)
    else Ok(tree)
  }

  /** `fetch_rewards_tree`: derive the file name from the content hash, download the
      tree through `download` (the storage read, which is not part of the model),
      then validate it. */
  function FetchRewardsTree(merkle: MerkleRecord, test: bool, download: Location -> RewardsTree)
    : (r: Result<RewardsTree, ValidationError>)
    ensures test ==> r == Ok(download(LocalFile(TestTreePath)))
    ensures !test ==>
      var tree := download(S3Object(UploadBucket, KeyPrefix + FilePrefix + merkle.contentHash + FileSuffix));
      && (r.Ok? <==> Reconciled(tree, merkle))
      && (r.Ok? ==> r.value == tree)
      && (r.Err? ==> r == ValidateTree(tree, merkle, false))
  {
    var fileName := PastFileName(merkle.contentHash);
    assert KeyPrefix + fileName == KeyPrefix + FilePrefix + merkle.contentHash + FileSuffix;
    ValidateTree(download(DownloadLocation(fileName, test)), merkle, test)
  }

  // ---------------------------------------------------------------------------
  // Fixed-width formatter
  // ---------------------------------------------------------------------------

  /** One key/value pair of the dictionary handed to the formatter; the value is already rendered as text. */
  datatype Entry = Entry(key: string, value: string)

  /** Width that every key is padded to. */
  const KeyWidth: nat := 33

  /** The fence wrapped around the whole message. */
  const Fence: string := "```"

  function Max(a: int, b: int): int {
    if a < b then b else a
  }

  /** Python's `format(s, " <width")`: left-justify, fill with spaces, never truncate. */
  function PadRight(s: string, width: nat): (r: string)
    ensures |r| == Max(|s|, width)
    ensures r[..|s|] == s
    ensures forall i :: |s| <= i < |r| ==> r[i] == ' '
  {
    if |s| >= width then s else s + seq(width - |s|, _ => ' ')
  }

  /** One line of the message: the padded key, one space, the value. */
  function FormatLine(e: Entry): (line: string)
    ensures |line| == Max(|e.key|, KeyWidth) + 1 + |e.value|
    ensures line[..|e.key|] == e.key
    ensures forall i :: |e.key| <= i <= Max(|e.key|, KeyWidth) ==> line[i] == ' '
    ensures line[Max(|e.key|, KeyWidth) + 1..] == e.value
  {
    PadRight(e.key, KeyWidth) + " " + e.value
  }

  /** The `map` over the dictionary's items: one formatted line per entry, in order. */
  function Lines(entries: seq<Entry>): (lines: seq<string>)
    ensures |lines| == |entries|
    ensures forall i :: 0 <= i < |entries| ==> |lines[i]| > |entries[i].key| && lines[i][..|entries[i].key|] == entries[i].key
  {
    seq(|entries|, i requires 0 <= i < |entries| => FormatLine(entries[i]))
  }

  /** Python's `"\n".join(lines)`: empty for no lines, otherwise the first line, followed by a
      newline when more lines follow. */
  function Join(lines: seq<string>): (s: string)
    ensures |lines| == 0 ==> s == ""
    ensures |lines| >= 1 ==> |s| >= |lines[0]| && s[..|lines[0]|] == lines[0]
    ensures |lines| >= 2 ==> |s| > |lines[0]| && s[|lines[0]|] == '\n'
  {
    if |lines| == 0 then ""
    else if |lines| == 1 then lines[0]
    else lines[0] + "\n" + Join(lines[1..])
  }

  /** `formatter`: every entry on its own line, in order, the whole wrapped in fences. */
  function Formatter(entries: seq<Entry>): (msg: string)
    ensures |msg| >= 2 * |Fence|
    ensures msg[..|Fence|] == Fence && msg[|msg| - |Fence|..] == Fence
    ensures msg[|Fence|..|msg| - |Fence|] == Join(Lines(entries))
  {
    Fence + Join(Lines(entries)) + Fence
  }

  /** The text between the two fences of a message. */
  function Unfenced(msg: string): string
    requires |msg| >= 2 * |Fence|
  {
    msg[|Fence|..|msg| - |Fence|]
  }

  // ---------------------------------------------------------------------------
  // Reading a message back: Python's `s.split("\n")` and a newline count
  // ---------------------------------------------------------------------------

  function SplitLines(s: string): (r: seq<string>)
    ensures |r| >= 1
    decreases |s|
  {
    if s == [] then [""]
    else
      var rest := SplitLines(s[1..]);
      if s[0] == '\n' then [""] + rest else [[s[0]] + rest[0]] + rest[1..]
  }

  function CountNewlines(s: string): nat
    decreases |s|
  {
    if s == [] then 0 else (if s[0] == '\n' then 1 else 0) + CountNewlines(s[1..])
  }

  lemma {:induction false} SplitSingleLine(a: string)
    requires '\n' !in a
    ensures SplitLines(a) == [a]
    decreases |a|
  {
    if a != [] {
      SplitSingleLine(a[1..]);
      assert [a[0]] + a[1..] == a;
    }
  }

  lemma {:induction false} SplitAfterLine(a: string, b: string)
    requires '\n' !in a
    ensures SplitLines(a + "\n" + b) == [a] + SplitLines(b)
    decreases |a|
  {
    var s := a + "\n" + b;
    if a == [] {
      assert s[1..] == b;
    } else {
      assert s[1..] == a[1..] + "\n" + b;
      SplitAfterLine(a[1..], b);
      assert [a[0]] + a[1..] == a;
    }
  }

  /** Splitting the joined lines on newlines gives back the lines, when none contains a newline. */
  lemma {:induction false} SplitJoin(lines: seq<string>)
    requires |lines| >= 1
    requires forall i :: 0 <= i < |lines| ==> '\n' !in lines[i]
    ensures SplitLines(Join(lines)) == lines
    decreases |lines|
  {
    if |lines| == 1 {
      SplitSingleLine(lines[0]);
    } else {
      SplitAfterLine(lines[0], Join(lines[1..]));
      SplitJoin(lines[1..]);
    }
  }

  lemma {:induction false} CountConcat(a: string, b: string)
    ensures CountNewlines(a + b) == CountNewlines(a) + CountNewlines(b)
    decreases |a|
  {
    if a == [] {
      assert a + b == b;
    } else {
      assert (a + b)[1..] == a[1..] + b;
      CountConcat(a[1..], b);
    }
  }

  lemma {:induction false} CountNone(a: string)
    requires '\n' !in a
    ensures CountNewlines(a) == 0
    decreases |a|
  {
    if a != [] {
      CountNone(a[1..]);
    }
  }

  /** n lines without newlines are joined by exactly n - 1 newlines. */
  lemma {:induction false} CountJoin(lines: seq<string>)
    requires |lines| >= 1
    requires forall i :: 0 <= i < |lines| ==> '\n' !in lines[i]
    ensures CountNewlines(Join(lines)) == |lines| - 1
    decreases |lines|
  {
    CountNone(lines[0]);
    if |lines| > 1 {
      CountConcat(lines[0], "\n");
      CountConcat(lines[0] + "\n", Join(lines[1..]));
      CountJoin(lines[1..]);
    }
  }

  predicate NoNewlines(entries: seq<Entry>) {
    forall i :: 0 <= i < |entries| ==> '\n' !in entries[i].key && '\n' !in entries[i].value
  }

  lemma LineHasNoNewline(e: Entry)
    requires '\n' !in e.key && '\n' !in e.value
    ensures '\n' !in FormatLine(e)
  {
  }

  /** For n >= 1 entries free of newlines, the text between the fences is exactly the
      n formatted lines, in input order, separated by n - 1 newlines. */
  lemma FormatterLines(entries: seq<Entry>)
    requires |entries| >= 1 && NoNewlines(entries)
    ensures var body := Unfenced(Formatter(entries));
      && SplitLines(body) == Lines(entries)
      && CountNewlines(body) == |entries| - 1
  {
    var lines := Lines(entries);
    forall i | 0 <= i < |lines|
      ensures '\n' !in lines[i]
    {
      LineHasNoNewline(entries[i]);
    }
    SplitJoin(lines);
    CountJoin(lines);
  }
}
