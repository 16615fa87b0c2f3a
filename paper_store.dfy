/** The tools that read a parsed paper (`parsed_paper.json`, the dictionary that
    `chunk_paper_sections` builds) and the append-only findings log `findings.txt`. */
module PaperStore {
  import opened Wrappers
  import opened PyStr
  import opened OrderedMaps
  import PaperText

  /** A parsed paper: each section name mapped to its chunks, in order. Chunk `i` is stored
      under the key `chunk_i`, so the list position is the chunk number. */
  type Paper = OrderedMap<seq<string>>

  const MaxChars := 50000
  const SectionNotFound := "Section not found"
  const ChunkNotFound := "Chunk not found"
  const FindingsFile := "findings.txt"

  /** The key `f"chunk_{i}"`. */
  function ChunkName(i: int): string {
    "chunk_" + IntToString(i)
  }

  /** The keys of a section with `n` chunks, in order. */
  function ChunkNames(n: nat): (r: seq<string>)
    ensures |r| == n && forall i :: 0 <= i < n ==> r[i] == ChunkName(i)
  {
    seq(n, i requires 0 <= i => ChunkName(i))
  }

  // ---------------------------------------------------------------------
  // read_paper_headers

  /** The chunk keys of each section of `paper`, in the paper's order. */
  function HeaderLists(paper: Paper): (r: seq<seq<string>>)
    requires paper.Valid()
    ensures |r| == |paper.keys|
  {
    seq(|paper.keys|, i requires 0 <= i < |paper.keys| => ChunkNames(|paper.vals[paper.keys[i]]|))
  }

  /** What `read_paper_headers` returns for a paper. */
  function Headers(paper: Paper): (r: OrderedMap<seq<string>>)
    requires paper.Valid()
  {
    FromPairs(paper.keys, HeaderLists(paper), |paper.keys|)
  }

  /** The inner loop of `read_paper_headers`: the keys of a section with `n` chunks. */
  method ChunkKeys(n: nat) returns (chunks: seq<string>)
    ensures chunks == ChunkNames(n)
  {
    chunks := [];
    var c := 0;
    while c < n
      invariant 0 <= c <= n && |chunks| == c
      invariant forall k :: 0 <= k < c ==> chunks[k] == ChunkName(k)
    {
      chunks := chunks + [ChunkName(c)];
      c := c + 1;
    }
  }

  /** `read_paper_headers(paper_folder)`: every section mapped to the list of its chunk keys. */
  method ReadPaperHeaders(file: Option<Paper>) returns (r: Result<OrderedMap<seq<string>>>)
    requires file.Some? ==> file.value.Valid()
    ensures file.None? ==> r == Err(FileNotFoundError)
    ensures file.Some? ==> r == Ok(Headers(file.value))
  {
    if file.None? {
      return Err(FileNotFoundError);
    }
    var paper := file.value;
    var headers: OrderedMap<seq<string>> := Empty();
    var j := 0;
    while j < |paper.keys|
      invariant 0 <= j <= |paper.keys|
      invariant headers == FromPairs(paper.keys, HeaderLists(paper), j)
    {
      var section := paper.keys[j];
      var chunks := ChunkKeys(|paper.vals[section]|);
      headers := Put(headers, section, chunks);
      j := j + 1;
    }
    r := Ok(headers);
  }

  /** The headers list the paper's sections in the paper's order, each with its chunk keys. */
  lemma HeadersOf(paper: Paper)
    requires paper.Valid()
    ensures Headers(paper).keys == paper.keys
    ensures forall s :: s in Headers(paper).vals ==>
      s in paper.vals && Headers(paper).vals[s] == ChunkNames(|paper.vals[s]|)
  {
    FromPairsKeys(paper.keys, HeaderLists(paper), |paper.keys|);
    assert paper.keys[..|paper.keys|] == paper.keys;
    forall s | s in Headers(paper).vals
      ensures s in paper.vals && Headers(paper).vals[s] == ChunkNames(|paper.vals[s]|)
    {
      var i :| 0 <= i < |paper.keys| && paper.keys[i] == s;
      FromPairsValue(paper.keys, HeaderLists(paper), |paper.keys|, i);
    }
  }

  // ---------------------------------------------------------------------
  // read_whole_paper

  /** The section banner `=== section ===` on its own line. */
  function Banner(section: string): string {
    "=== " + section + " ===\n"
  }

  /** The text of the sections `ks[lo..hi]`: for each, its banner and then its chunk lines. */
  function WholeText(ks: seq<string>, vals: map<string, seq<string>>, lo: nat, hi: nat): string
    requires hi <= |ks| && forall i :: 0 <= i < |ks| ==> ks[i] in vals
  {
    if hi <= lo then ""
    else WholeText(ks, vals, lo, hi - 1) + Banner(ks[hi - 1]) + Lines(vals[ks[hi - 1]])
  }

  /** `s[:n]` for a non-negative `n`. */
  function Clip(s: string, n: nat): (r: string)
    ensures |r| == Min(|s|, n) && r == s[..|r|]
  {
    if |s| <= n then s else s[..n]
  }

  /** `read_whole_paper(paper_folder)`: the whole text, cut to its first 50000 characters. */
  method ReadWholePaper(file: Option<Paper>) returns (r: Result<string>)
    requires file.Some? ==> file.value.Valid()
    ensures file.None? ==> r == Err(FileNotFoundError)
    ensures file.Some? ==> r == Ok(Clip(WholeText(file.value.keys, file.value.vals, 0, |file.value.keys|), MaxChars))
  {
    if file.None? {
      return Err(FileNotFoundError);
    }
    var paper := file.value;
    var fullText := "";
    var j := 0;
    while j < |paper.keys|
      invariant 0 <= j <= |paper.keys|
      invariant fullText == WholeText(paper.keys, paper.vals, 0, j)
    {
      var section := paper.keys[j];
      var cs := paper.vals[section];
      ghost var before := fullText;
      fullText := fullText + Banner(section);
      var c := 0;
      while c < |cs|
        invariant 0 <= c <= |cs|
        invariant fullText == before + Banner(section) + Lines(cs[..c])
      {
        assert cs[..c + 1][..c] == cs[..c];
        fullText := fullText + cs[c] + "\n";
        c := c + 1;
      }
      assert cs[..c] == cs;
      j := j + 1;
    }
    r := Ok(Clip(fullText, MaxChars));
  }

  /** The text of consecutive runs of sections is the concatenation of their texts. */
  lemma {:induction false} WholeTextSplit(ks: seq<string>, vals: map<string, seq<string>>, lo: nat, mid: nat, hi: nat)
    requires lo <= mid <= hi <= |ks| && forall i :: 0 <= i < |ks| ==> ks[i] in vals
    ensures WholeText(ks, vals, lo, hi) == WholeText(ks, vals, lo, mid) + WholeText(ks, vals, mid, hi)
  {
    if mid < hi {
      WholeTextSplit(ks, vals, lo, mid, hi - 1);
    }
  }

  /** The whole text around section `i`: the sections before it, its banner and chunk lines,
      then the sections after it. */
  lemma WholeTextAt(ks: seq<string>, i: nat, vals: map<string, seq<string>>)
    requires i < |ks| && forall j :: 0 <= j < |ks| ==> ks[j] in vals
    ensures WholeText(ks, vals, 0, |ks|)
      == WholeText(ks, vals, 0, i) + Banner(ks[i]) + Lines(vals[ks[i]]) + WholeText(ks, vals, i + 1, |ks|)
  {
    WholeTextSplit(ks, vals, 0, i + 1, |ks|);
  }

  lemma SliceOfConcat(a: string, x: string, b: string)
    ensures (a + x + b)[|a|..|a| + |x|] == x
  {
  }

  lemma SliceInMiddle(a: string, b: string, c: string, lo: nat, hi: nat)
    requires lo <= hi <= |b|
    ensures (a + b + c)[|a| + lo..|a| + hi] == b[lo..hi]
  {
  }

  /** Every chunk of every section occurs in the whole text as a line of its own, right after
      the section's banner and the section's earlier chunks. */
  lemma ChunkInWholeText(ks: seq<string>, vals: map<string, seq<string>>, i: nat, c: nat) returns (o: nat)
    requires forall j :: 0 <= j < |ks| ==> ks[j] in vals
    requires i < |ks| && c < |vals[ks[i]]|
    ensures var chunk := vals[ks[i]][c];
      var whole := WholeText(ks, vals, 0, |ks|);
      o == |WholeText(ks, vals, 0, i)| + |Banner(ks[i])| + |Lines(vals[ks[i]][..c])|
      && o + |chunk| + 1 <= |whole| && whole[o..o + |chunk| + 1] == chunk + "\n"
  {
    var cs := vals[ks[i]];
    var before := WholeText(ks, vals, 0, i) + Banner(ks[i]);
    var after := WholeText(ks, vals, i + 1, |ks|);
    var earlier := Lines(cs[..c]);
    var line := cs[c] + "\n";
    WholeTextAt(ks, i, vals);
    LinesAt(cs, c);
    SliceOfConcat(earlier, line, Lines(cs[c + 1..]));
    SliceInMiddle(before, Lines(cs), after, |earlier|, |earlier| + |line|);
    o := |before| + |earlier|;
  }

  // ---------------------------------------------------------------------
  // read_paper_section

  /** `read_paper_section(paper_folder, section, chunk)`. A negative chunk passes the length
      test and then names a key, `chunk_-1` say, that the section does not have. */
  function ReadPaperSection(file: Option<Paper>, section: string, chunk: int): (r: Result<string>)
    requires file.Some? ==> file.value.Valid()
    ensures r.Err? <==> file.None? || (section in file.value.vals && chunk < 0)
    ensures r.Err? && file.Some? ==> r.error == KeyError(ChunkName(chunk))
    ensures file.Some? && section in file.value.vals && 0 <= chunk < |file.value.vals[section]| ==>
      r == Ok(file.value.vals[section][chunk])
    ensures file.Some? && section !in file.value.vals ==> r == Ok(SectionNotFound)
    ensures file.Some? && section in file.value.vals && chunk >= |file.value.vals[section]| ==> r == Ok(ChunkNotFound)
  {
    if file.None? then Err(FileNotFoundError)
    else
      var paper := file.value;
      if section !in paper.vals then Ok(SectionNotFound)
      else if chunk >= |paper.vals[section]| then Ok(ChunkNotFound)
      else if chunk < 0 then Err(KeyError(ChunkName(chunk)))
      else Ok(paper.vals[section][chunk])
  }

  /** Reading chunk `k` of a section of a paper chunked with step `max_words - overlap` gives
      that section's words `k*step … k*step + max_words` joined by spaces, and `chunk_k` is the
      key the headers list for it. */
  lemma ReadChunkedSection(text: OrderedMap<string>, maxWords: int, overlap: int, s: string, k: nat)
    requires text.Valid()
    requires PaperText.ChunkPaper(text, maxWords, overlap).Ok?
    requires var p := PaperText.ChunkPaper(text, maxWords, overlap).value;
      s in p.vals && k < |p.vals[s]|
    ensures var p := PaperText.ChunkPaper(text, maxWords, overlap).value;
      && s in text.vals && maxWords - overlap > 0
      && s in Headers(p).vals && k < |Headers(p).vals[s]| && Headers(p).vals[s][k] == ChunkName(k)
      && ReadPaperSection(Some(p), s, k)
         == Ok(PaperText.Window(Split(text.vals[s]), k, maxWords, maxWords - overlap))
  {
    var p := PaperText.ChunkPaper(text, maxWords, overlap).value;
    PaperText.ChunkPaperShape(text, maxWords, overlap);
    var step := maxWords - overlap;
    assert s in text.vals && p.vals[s] == PaperText.Chunks(Split(text.vals[s]), maxWords, step);
    assert step > 0;
    HeadersOf(p);
    assert s in p.keys;
  }

  // ---------------------------------------------------------------------
  // The findings log

  /** Each string stripped. */
  function StripAll(ls: seq<string>): (r: seq<string>)
    ensures |r| == |ls|
  {
    seq(|ls|, i requires 0 <= i < |ls| => Strip(ls[i]))
  }

  /** What `read_finding` returns for the log's content, `None` when the file does not exist. */
  function FindingsOf(text: Option<string>): (r: seq<string>)
    ensures text.None? ==> r == []
  {
    if text.None? then [] else StripAll(ReadLines(text.value))
  }

  /** A log whose content is empty or ends with a newline, as every log written only by
      `write_finding` is. */
  predicate WholeLines(text: Option<string>) {
    text.None? || text.value == [] || text.value[|text.value| - 1] == '\n'
  }

  /** The findings file of one paper folder. */
  class FindingsLog {
    /** Whether the paper folder exists: opening the log for appending cannot create it. */
    var folderExists: bool
    /** The content of `findings.txt`; `None` while the file does not exist. */
    var text: Option<string>

    /** A file can only exist inside an existing folder. */
    ghost predicate Valid()
      reads this
    {
      text.Some? ==> folderExists
    }

    constructor (folder: bool, content: Option<string>)
      requires content.Some? ==> folder
      ensures Valid() && folderExists == folder && text == content
    {
      folderExists := folder;
      text := content;
    }

    /** `read_finding(paper_folder)` */
    function ReadFinding(): (r: seq<string>)
      reads this
      ensures text.None? ==> r == []
      ensures text.Some? ==> |r| == |ReadLines(text.value)|
    {
      FindingsOf(text)
    }

    /** `write_finding(paper_folder, findings)`: opening in append mode creates the file when
        the folder exists and raises FileNotFoundError when it does not; then each finding is
        written followed by a newline. */
    method WriteFinding(folder: string, findings: seq<string>) returns (r: Result<string>)
      requires Valid()
      modifies this
      ensures Valid() && folderExists == old(folderExists)
      ensures !folderExists ==> r == Err(FileNotFoundError) && text == old(text)
      ensures folderExists ==> text == Some(old(text).GetOr("") + Lines(findings))
      ensures WholeLines(old(text)) ==> WholeLines(text)
      ensures folderExists ==> r == Ok("Successfully written to " + PathJoin(folder, FindingsFile))
    {
      if !folderExists {
        return Err(FileNotFoundError);
      }
      if text.None? {
        text := Some("");
      }
      ghost var base := old(text).GetOr("");
      assert text == Some(base);
      assert findings[..0] == [] && base + Lines([]) == base;
      var i := 0;
      while i < |findings|
        invariant 0 <= i <= |findings|
        invariant text == Some(base + Lines(findings[..i]))
        invariant folderExists == old(folderExists)
      {
        LinesSnoc(findings, i);
        assert base + Lines(findings[..i + 1]) == text.value + findings[i] + "\n";
        text := Some(text.value + findings[i] + "\n");
        i := i + 1;
      }
      assert findings[..i] == findings;
      r := Ok("Successfully written to " + PathJoin(folder, FindingsFile));
    }
  }

  /** The lines of the written findings are the findings, each with its newline. */
  lemma {:induction false} ReadLinesOfLines(fs: seq<string>)
    requires forall i :: 0 <= i < |fs| ==> NoNewline(fs[i])
    ensures ReadLines(Lines(fs)) == seq(|fs|, i requires 0 <= i < |fs| => fs[i] + "\n")
    decreases |fs|
  {
    if fs != [] {
      var n := |fs| - 1;
      var init := Lines(fs[..n]);
      ReadLinesOfLines(fs[..n]);
      assert init == [] || init[|init| - 1] == '\n';
      assert Lines(fs) == init + (fs[n] + "\n");
      ReadLinesAppend(init, fs[n] + "\n");
      ReadLinesOfLine(fs[n]);
    }
  }

  lemma StripAllAppend(a: seq<string>, b: seq<string>)
    ensures StripAll(a + b) == StripAll(a) + StripAll(b)
  {
  }

  /** Reading back written findings strips away the newline each was written with. */
  lemma StripLinesOf(fs: seq<string>)
    requires forall i :: 0 <= i < |fs| ==> NoNewline(fs[i])
    ensures StripAll(ReadLines(Lines(fs))) == StripAll(fs)
  {
    ReadLinesOfLines(fs);
    forall i | 0 <= i < |fs|
      ensures Strip(fs[i] + "\n") == Strip(fs[i])
    {
      StripSnocSpace(fs[i], '\n');
    }
  }

  /** After `write_finding(fs)` on a log that ends with a whole line (as every log written only
      by `write_finding` does), `read_finding` gives the earlier findings followed by the new
      ones, each stripped, as long as no finding contains a '\n' or '\r'; on a missing log it
      gives just the new ones. */
  lemma WriteThenRead(prev: Option<string>, fs: seq<string>)
    requires WholeLines(prev)
    requires forall i :: 0 <= i < |fs| ==> NoNewline(fs[i])
    ensures FindingsOf(Some(prev.GetOr("") + Lines(fs))) == FindingsOf(prev) + StripAll(fs)
  {
    var base := prev.GetOr("");
    ReadLinesAppend(base, Lines(fs));
    StripAllAppend(ReadLines(base), ReadLines(Lines(fs)));
    StripLinesOf(fs);
    assert FindingsOf(prev) == StripAll(ReadLines(base));
  }
}
