/** Turning the text blocks of a paper into sections and word-window chunks
    (`is_header`, `filter_headers` and `chunk_paper_sections` in `tools/paper_tools.py`). */
module PaperText {
  import opened Wrappers
  import opened PyStr
  import opened OrderedMaps

  const MaxHeaderLength := 50
  const SimilarityThreshold := 80
  const CommonHeaders := ["Introduction", "Methodology", "Methods", "Results", "Experiments",
                          "Discussion", "Conclusion", "Abstract", "References", "Supplementary"]

  // ---------------------------------------------------------------------
  // Header classification

  /** `alphabetic_ratio(text) < 0.75`, i.e. letters / max(len, 1) < 3/4, over the integers.
      With at most 50 characters the quotient is never within rounding distance of 0.75, so the
      floating-point test agrees with this one. */
  predicate MostlyNotLetters(t: string) {
    4 * AlphaCount(t) < 3 * Max(|t|, 1)
  }

  /** A block the default `is_header` accepts: its stripped text has at most 50 characters, at
      least three quarters of them letters. */
  predicate Header(block: string) {
    |Strip(block)| <= MaxHeaderLength && !MostlyNotLetters(Strip(block))
  }

  /** `is_header(block_text, max_length, similarity_threshold)`. The loop over the common
      headers returns True on a fuzzy match, and so does falling out of it, so whatever the
      scores are, only the length test and the letter test decide. `partialRatio` stands for
      `fuzz.partial_ratio` with both sides lower-cased. */
  method IsHeader(block: string, maxLength: int, threshold: int, partialRatio: (string, string) -> int)
    returns (r: bool)
    ensures r <==> |Strip(block)| <= maxLength && !MostlyNotLetters(Strip(block))
  {
    var t := Strip(block);
    if |t| > maxLength {
      return false;
    }
    if MostlyNotLetters(t) {
      return false;
    }
    var i := 0;
    while i < |CommonHeaders| {
      if partialRatio(t, CommonHeaders[i]) >= threshold {
        return true;
      }
      i := i + 1;
    }
    return true;
  }

  /** A header's key, its stripped text, is never empty and never has surrounding whitespace. */
  lemma HeaderKeyNonEmpty(block: string)
    requires Header(block)
    ensures Strip(block) != [] && !IsSpace(Strip(block)[0]) && !IsSpace(Strip(block)[|Strip(block)| - 1])
  {
    var t := Strip(block);
    assert t == RStrip(LStrip(block));
    var l := LStrip(block);
    assert t == l[..|t|];
    assert t[0] == l[0];
  }

  // ---------------------------------------------------------------------
  // Grouping blocks into sections

  /** A text block as `filter_headers` sees it: a header, under its stripped text, or a block
      of content, as it is. */
  datatype Block = HeaderBlock(key: string) | TextBlock(text: string)

  /** What the default `is_header` makes of a block. */
  function Classify(block: string): (r: Block)
    ensures r.HeaderBlock? <==> Header(block)
    ensures r.HeaderBlock? ==> r.key == Strip(block)
    ensures r.TextBlock? ==> r.text == block
  {
    if Header(block) then HeaderBlock(Strip(block)) else TextBlock(block)
  }

  function Blocks(text: seq<string>): (bs: seq<Block>)
    ensures |bs| == |text| && forall i :: 0 <= i < |text| ==> bs[i] == Classify(text[i])
  {
    seq(|text|, i requires 0 <= i < |text| => Classify(text[i]))
  }

  /** `curr_hdr` after the first `n` blocks. */
  function CurrentHeader(bs: seq<Block>, n: nat): Option<string>
    requires n <= |bs|
  {
    if n == 0 then None
    else if bs[n - 1].HeaderBlock? then Some(bs[n - 1].key)
    else CurrentHeader(bs, n - 1)
  }

  /** `content_dict` after the first `n` blocks: a header (re)starts its entry with "", any
      other block is appended to the current header's entry, if there is one. */
  function Content(bs: seq<Block>, n: nat): (d: OrderedMap<string>)
    requires n <= |bs|
    ensures d.Valid()
    ensures CurrentHeader(bs, n).Some? ==> CurrentHeader(bs, n).value in d.vals
  {
    if n == 0 then Empty()
    else
      var d := Content(bs, n - 1);
      var cur := CurrentHeader(bs, n - 1);
      match bs[n - 1]
      case HeaderBlock(k) => Put(d, k, "")
      case TextBlock(t) => if cur.Some? then Put(d, cur.value, d.vals[cur.value] + t) else d
  }

  /** The content dictionary of a whole paper's blocks. */
  function Grouped(text: seq<string>): (d: OrderedMap<string>)
    ensures d.Valid()
  {
    Content(Blocks(text), |text|)
  }

  /** The keys of `ks` whose value has a non-whitespace character, in order. */
  function KeysWithText(ks: seq<string>, vals: map<string, string>): (r: seq<string>)
    requires forall i :: 0 <= i < |ks| ==> ks[i] in vals
    ensures forall x :: x in r <==> x in ks && x in vals && HasText(vals[x])
    ensures (forall i, j :: 0 <= i < j < |ks| ==> ks[i] != ks[j]) ==> forall i, j :: 0 <= i < j < |r| ==> r[i] != r[j]
  {
    if ks == [] then []
    else
      var rest := KeysWithText(ks[1..], vals);
      assert (forall i, j :: 0 <= i < j < |ks| ==> ks[i] != ks[j]) ==> ks[0] !in ks[1..];
      if HasText(vals[ks[0]]) then [ks[0]] + rest else rest
  }

  /** The kept keys appear in the order of `ks`. */
  lemma {:induction false} KeysWithTextOrder(ks: seq<string>, vals: map<string, string>)
    requires forall i :: 0 <= i < |ks| ==> ks[i] in vals
    requires forall i, j :: 0 <= i < j < |ks| ==> ks[i] != ks[j]
    ensures InOrderOf(KeysWithText(ks, vals), ks)
  {
    if ks != [] {
      var rest := KeysWithText(ks[1..], vals);
      KeysWithTextOrder(ks[1..], vals);
      assert ks[0] !in ks[1..];
      forall i, j | 0 <= i < j < |rest|
        ensures rest[i] in ks && rest[j] in ks && IndexOf(ks, rest[i]) < IndexOf(ks, rest[j])
      {
        assert rest[i] in ks[1..] && rest[j] in ks[1..];
        IndexInTail(ks, rest[i]);
        IndexInTail(ks, rest[j]);
      }
      if HasText(vals[ks[0]]) {
        var r := [ks[0]] + rest;
        forall i, j | 0 <= i < j < |r|
          ensures r[i] in ks && r[j] in ks && IndexOf(ks, r[i]) < IndexOf(ks, r[j])
        {
          assert r[j] == rest[j - 1] && r[j] in rest && r[j] in ks[1..];
          IndexInTail(ks, r[j]);
          if i > 0 {
            assert r[i] == rest[i - 1];
          }
        }
      }
    }
  }

  /** `{k: v for k, v in d.items() if len(v.strip()) > 0}` */
  function DropBlank(d: OrderedMap<string>): (r: OrderedMap<string>)
    requires d.Valid()
    ensures r.Valid()
    ensures forall k :: k in r.vals <==> k in d.vals && HasText(d.vals[k])
    ensures forall k :: k in r.vals ==> r.vals[k] == d.vals[k]
  {
    OrderedMap(KeysWithText(d.keys, d.vals), map k | k in d.vals && HasText(d.vals[k]) :: d.vals[k])
  }

  /** The entries `filter_headers` keeps stay in the order of the content dictionary. */
  lemma DropBlankOrder(d: OrderedMap<string>)
    requires d.Valid()
    ensures InOrderOf(DropBlank(d).keys, d.keys)
  {
    assert DropBlank(d).keys == KeysWithText(d.keys, d.vals);
    KeysWithTextOrder(d.keys, d.vals);
  }

  /** One turn of the loop of `filter_headers`: block `i` of `text` either starts its header's
      entry afresh or is appended to the entry of the current header, if there is one. */
  method GroupStep(text: seq<string>, i: nat, contentDict: OrderedMap<string>, currHdr: Option<string>,
                   partialRatio: (string, string) -> int)
    returns (nextDict: OrderedMap<string>, nextHdr: Option<string>)
    requires i < |text|
    requires contentDict == Content(Blocks(text), i) && currHdr == CurrentHeader(Blocks(text), i)
    ensures nextDict == Content(Blocks(text), i + 1) && nextHdr == CurrentHeader(Blocks(text), i + 1)
  {
    ghost var bs := Blocks(text);
    var block := text[i];
    var isHeader := IsHeader(block, MaxHeaderLength, SimilarityThreshold, partialRatio);
    if isHeader {
      assert bs[i] == HeaderBlock(Strip(block));
      ContentAtHeader(bs, i + 1);
      nextHdr := Some(Strip(block));
      nextDict := Put(contentDict, nextHdr.value, "");
    } else {
      assert bs[i] == TextBlock(block);
      ContentAppends(bs, i + 1);
      nextHdr := currHdr;
      if currHdr.Some? {
        nextDict := Put(contentDict, currHdr.value, contentDict.vals[currHdr.value] + block);
      } else {
        nextDict := contentDict;
      }
    }
  }

  /** The loop of `filter_headers` over the blocks, building `content_dict`. */
  method GroupBlocks(text: seq<string>, partialRatio: (string, string) -> int) returns (contentDict: OrderedMap<string>)
    ensures contentDict == Grouped(text)
  {
    contentDict := Empty();
    var currHdr: Option<string> := None;
    var i := 0;
    while i < |text|
      invariant 0 <= i <= |text|
      invariant Content(Blocks(text), i) == contentDict && CurrentHeader(Blocks(text), i) == currHdr
    {
      contentDict, currHdr := GroupStep(text, i, contentDict, currHdr, partialRatio);
      i := i + 1;
    }
  }

  /** `filter_headers(text)`; `partialRatio` is the fuzzy matcher `is_header` consults. */
  method FilterHeaders(text: seq<string>, partialRatio: (string, string) -> int) returns (r: OrderedMap<string>)
    ensures r == DropBlank(Grouped(text))
  {
    var contentDict := GroupBlocks(text, partialRatio);
    r := DropBlank(contentDict);
  }

  /** The blocks `bs[lo..hi]` up to the first header among them, concatenated. */
  function UntilHeader(bs: seq<Block>, lo: nat, hi: nat): string
    requires lo <= hi <= |bs|
    decreases hi - lo
  {
    if lo == hi || bs[lo].HeaderBlock? then "" else bs[lo].text + UntilHeader(bs, lo + 1, hi)
  }

  /** No block of `bs[lo..hi]` is a header. */
  predicate NoHeader(bs: seq<Block>, lo: nat, hi: nat)
    requires lo <= hi <= |bs|
  {
    forall i :: lo <= i < hi ==> bs[i].TextBlock?
  }

  /** Block `k` is the last header among the first `n` blocks. */
  predicate LastHeaderAt(bs: seq<Block>, n: nat, k: nat)
    requires n <= |bs|
  {
    k < n && bs[k].HeaderBlock? && forall i :: k < i < n ==> bs[i].TextBlock?
  }

  /** Block `j` is the last header `h` among the first `n` blocks. */
  predicate LastHeaderFor(bs: seq<Block>, n: nat, j: nat, h: string)
    requires n <= |bs|
  {
    && j < n && bs[j] == HeaderBlock(h)
    && forall k :: j < k < n ==> bs[k] != HeaderBlock(h)
  }

  /** One more block: a content block is added while no header has been met, and otherwise
      nothing changes. */
  lemma {:induction false} UntilHeaderSnoc(bs: seq<Block>, lo: nat, hi: nat)
    requires lo <= hi < |bs|
    ensures NoHeader(bs, lo, hi) && bs[hi].TextBlock? ==> UntilHeader(bs, lo, hi + 1) == UntilHeader(bs, lo, hi) + bs[hi].text
    ensures !(NoHeader(bs, lo, hi) && bs[hi].TextBlock?) ==> UntilHeader(bs, lo, hi + 1) == UntilHeader(bs, lo, hi)
    decreases hi - lo
  {
    if lo == hi {
      assert bs[hi].TextBlock? ==> bs[hi].text + "" == bs[hi].text;
    } else if bs[lo].TextBlock? {
      UntilHeaderSnoc(bs, lo + 1, hi);
      assert NoHeader(bs, lo, hi) <==> NoHeader(bs, lo + 1, hi);
    }
  }

  /** The current header is the key of the last header block seen, if any. */
  lemma {:induction false} CurrentIsLastHeader(bs: seq<Block>, n: nat)
    requires n <= |bs|
    ensures CurrentHeader(bs, n).None? <==> NoHeader(bs, 0, n)
    ensures CurrentHeader(bs, n).Some? ==> exists k: nat :: LastHeaderAt(bs, n, k) && CurrentHeader(bs, n).value == bs[k].key
  {
    if n > 0 {
      CurrentIsLastHeader(bs, n - 1);
      if bs[n - 1].HeaderBlock? {
        assert LastHeaderAt(bs, n, n - 1);
      } else if CurrentHeader(bs, n - 1).Some? {
        var k: nat :| LastHeaderAt(bs, n - 1, k) && CurrentHeader(bs, n - 1).value == bs[k].key;
        assert LastHeaderAt(bs, n, k);
      }
    }
  }

  /** The keys of the content dictionary are exactly the keys of the header blocks. */
  lemma {:induction false} GroupKeys(bs: seq<Block>, n: nat, h: string)
    requires n <= |bs|
    ensures h in Content(bs, n).vals <==> exists j :: 0 <= j < n && bs[j] == HeaderBlock(h)
  {
    if n > 0 {
      GroupKeys(bs, n - 1, h);
    }
  }

  /** Once a header has been seen, the current header is that of the last header block, which
      comes no earlier. */
  lemma {:induction false} LastHeaderOf(bs: seq<Block>, n: nat, j: nat) returns (k: nat)
    requires j < n <= |bs| && bs[j].HeaderBlock?
    ensures j <= k && LastHeaderAt(bs, n, k) && CurrentHeader(bs, n) == Some(bs[k].key)
  {
    if bs[n - 1].HeaderBlock? {
      k := n - 1;
    } else {
      k := LastHeaderOf(bs, n - 1, j);
    }
  }

  /** A header block (re)starts its own entry with "" and becomes the current header. */
  lemma ContentAtHeader(bs: seq<Block>, n: nat)
    requires 0 < n <= |bs| && bs[n - 1].HeaderBlock?
    ensures Content(bs, n) == Put(Content(bs, n - 1), bs[n - 1].key, "")
    ensures CurrentHeader(bs, n) == Some(bs[n - 1].key)
  {
  }

  /** A content block is appended to the entry of the current header, if there is one. */
  lemma ContentAppends(bs: seq<Block>, n: nat)
    requires 0 < n <= |bs| && bs[n - 1].TextBlock?
    ensures CurrentHeader(bs, n) == CurrentHeader(bs, n - 1)
    ensures CurrentHeader(bs, n - 1).None? ==> Content(bs, n) == Content(bs, n - 1)
    ensures CurrentHeader(bs, n - 1).Some? ==>
      var cur := CurrentHeader(bs, n - 1).value;
      cur in Content(bs, n - 1).vals && Content(bs, n) == Put(Content(bs, n - 1), cur, Content(bs, n - 1).vals[cur] + bs[n - 1].text)
  {
  }

  /** A header's content is what follows its last occurrence, up to the next header: blocks
      before the first header go nowhere, and a repeated header starts again from "". */
  lemma {:induction false} GroupValue(bs: seq<Block>, n: nat, j: nat, h: string)
    requires n <= |bs| && LastHeaderFor(bs, n, j, h)
    ensures h in Content(bs, n).vals
    ensures Content(bs, n).vals[h] == UntilHeader(bs, j + 1, n)
  {
    if j == n - 1 {
      ContentAtHeader(bs, n);
    } else {
      assert LastHeaderFor(bs, n - 1, j, h);
      GroupValue(bs, n - 1, j, h);
      UntilHeaderSnoc(bs, j + 1, n - 1);
      if bs[n - 1].HeaderBlock? {
        ContentAtHeader(bs, n);
        assert bs[n - 1].key != h;
      } else {
        var k := LastHeaderOf(bs, n - 1, j);
        ContentAppends(bs, n);
        if k == j {
          assert NoHeader(bs, j + 1, n - 1);
        } else {
          assert bs[k].key != h;
          assert !NoHeader(bs, j + 1, n - 1) by {
            assert j + 1 <= k < n - 1 && bs[k].HeaderBlock?;
          }
        }
      }
    }
  }

  /** The last header block `h`, given that there is one. */
  lemma LastHeader(bs: seq<Block>, h: string) returns (j: nat)
    requires exists j :: 0 <= j < |bs| && bs[j] == HeaderBlock(h)
    ensures LastHeaderFor(bs, |bs|, j, h)
  {
    j :| 0 <= j < |bs| && bs[j] == HeaderBlock(h);
    var k := j + 1;
    while k < |bs|
      invariant j < k <= |bs| && bs[j] == HeaderBlock(h)
      invariant forall m :: j < m < k ==> bs[m] != HeaderBlock(h)
    {
      if bs[k] == HeaderBlock(h) {
        j := k;
      }
      k := k + 1;
    }
  }

  /** `filter_headers`, without the fold: for the last header block `j` with stripped text `h`,
      `h` is a section exactly when the blocks after `j`, up to the next header, are not all
      whitespace, and that text is the section's content. */
  lemma FilterHeadersIff(text: seq<string>, j: nat, h: string)
    requires LastHeaderFor(Blocks(text), |text|, j, h)
    ensures h in DropBlank(Grouped(text)).vals <==> HasText(UntilHeader(Blocks(text), j + 1, |text|))
    ensures h in DropBlank(Grouped(text)).vals ==>
      DropBlank(Grouped(text)).vals[h] == UntilHeader(Blocks(text), j + 1, |text|)
  {
    GroupValue(Blocks(text), |text|, j, h);
  }

  /** Every section is the stripped text of a header block. */
  lemma FilterHeadersKeys(text: seq<string>, h: string)
    requires h in DropBlank(Grouped(text)).vals
    ensures exists j: nat :: LastHeaderFor(Blocks(text), |text|, j, h) && Header(text[j]) && Strip(text[j]) == h
  {
    GroupKeys(Blocks(text), |text|, h);
    var j := LastHeader(Blocks(text), h);
    assert Blocks(text)[j] == Classify(text[j]);
  }

  /** No section `filter_headers` returns has whitespace-only content. */
  lemma FilterHeadersNoBlank(text: seq<string>, k: string)
    requires k in DropBlank(Grouped(text)).vals
    ensures Strip(DropBlank(Grouped(text)).vals[k]) != []
  {
    StripEmptyIffBlank(DropBlank(Grouped(text)).vals[k]);
  }

  // ---------------------------------------------------------------------
  // Word-window chunking

  /** Python's `s[lo:hi]`: negative bounds count from the end, and bounds are clipped. */
  function PySlice<T>(s: seq<T>, lo: int, hi: int): (r: seq<T>)
    ensures 0 <= lo && 0 <= hi ==> r == s[Min(lo, |s|)..Max(Min(lo, |s|), Min(hi, |s|))]
  {
    var l := if lo < 0 then Max(lo + |s|, 0) else Min(lo, |s|);
    var h := if hi < 0 then Max(hi + |s|, 0) else Min(hi, |s|);
    if l >= h then [] else s[l..h]
  }

  /** `len(range(0, n, step))` for a positive step: ceil(n / step). */
  function ChunkCount(n: nat, step: int): nat
    requires step > 0
  {
    (n + step - 1) / step
  }

  /** The chunks of one section's words, `' '.join(words[i:i + max_words])` for each `i` of
      `range(0, len(words), step)`; a negative step gives an empty range. */
  function Chunks(words: seq<string>, maxWords: int, step: int): (r: seq<string>)
    requires step != 0
  {
    if step < 0 then []
    else seq(ChunkCount(|words|, step), k requires 0 <= k => Window(words, k, maxWords, step))
  }

  /** Chunk `k`: the words from `k * step` on, at most `maxWords` of them, joined by spaces. */
  function Window(words: seq<string>, k: nat, maxWords: int, step: nat): string {
    Join(" ", PySlice(words, k * step, k * step + maxWords))
  }

  const ZeroStepMessage := "range() arg 3 must not be zero"

  /** The chunks of each section, from the sections' contents in the paper's order. */
  function SectionChunks(contents: seq<string>, maxWords: int, step: int): (r: seq<seq<string>>)
    requires step != 0
    ensures |r| == |contents|
  {
    seq(|contents|, i requires 0 <= i < |contents| => Chunks(Split(contents[i]), maxWords, step))
  }

  /** What `chunk_paper_sections(paper_dict, max_words, overlap)` returns; a zero step raises
      as soon as the first section is reached. */
  function ChunkPaper(paper: OrderedMap<string>, maxWords: int, overlap: int): Result<OrderedMap<seq<string>>>
    requires paper.Valid()
  {
    ChunkedUpTo(paper.keys, Values(paper), maxWords, maxWords - overlap, |paper.keys|)
  }

  /** The outcome of the loop of `chunk_paper_sections` over the pairs `(keys[i], contents[i])`
      after its first `j` sections. */
  function ChunkedUpTo(keys: seq<string>, contents: seq<string>, maxWords: int, step: int, j: nat)
    : Result<OrderedMap<seq<string>>>
    requires |contents| == |keys| && j <= |keys|
  {
    if step == 0 then
      if j == 0 then Ok(Empty()) else Err(ValueError(ZeroStepMessage))
    else Ok(FromPairs(keys, SectionChunks(contents, maxWords, step), j))
  }

  /** `chunk_paper_sections` fails only on a zero step, and only when there is a section. */
  lemma ChunkPaperShape(paper: OrderedMap<string>, maxWords: int, overlap: int)
    requires paper.Valid()
    ensures ChunkPaper(paper, maxWords, overlap).Err? <==> maxWords == overlap && paper.keys != []
    ensures ChunkPaper(paper, maxWords, overlap).Ok? ==>
      var c := ChunkPaper(paper, maxWords, overlap).value;
      c.keys == paper.keys
      && forall s :: s in c.vals ==> s in paper.vals && c.vals[s] == Chunks(Split(paper.vals[s]), maxWords, maxWords - overlap)
  {
    if maxWords != overlap {
      var step := maxWords - overlap;
      var sc := SectionChunks(Values(paper), maxWords, step);
      var c := FromPairs(paper.keys, sc, |paper.keys|);
      FromPairsKeys(paper.keys, sc, |paper.keys|);
      assert paper.keys[..|paper.keys|] == paper.keys;
      forall s | s in c.vals
        ensures s in paper.vals && c.vals[s] == Chunks(Split(paper.vals[s]), maxWords, step)
      {
        var i :| 0 <= i < |paper.keys| && paper.keys[i] == s;
        FromPairsValue(paper.keys, sc, |paper.keys|, i);
      }
    }
  }

  /** The inner loop of `chunk_paper_sections` for one section. */
  method ChunkWords(words: seq<string>, maxWords: int, step: int) returns (chunks: seq<string>)
    requires step > 0
    ensures chunks == Chunks(words, maxWords, step)
  {
    chunks := [];
    var idx := 0;
    var i := 0;
    while i < |words|
      invariant i == idx * step && 0 <= idx <= ChunkCount(|words|, step)
      invariant idx > 0 ==> (idx - 1) * step < |words|
      invariant |chunks| == idx
      invariant forall k :: 0 <= k < idx ==> chunks[k] == Window(words, k, maxWords, step)
    {
      CeilStep(|words|, step, idx);
      var chunk := Join(" ", PySlice(words, i, i + maxWords));
      assert chunk == Window(words, idx, maxWords, step);
      chunks := chunks + [chunk];
      NextMultiple(idx, step);
      idx := idx + 1;
      i := i + step;
    }
    CeilExact(|words|, step, idx);
  }

  /** The chunks of one section's text; a negative step leaves the section empty. */
  method ChunkSection(text: string, maxWords: int, step: int) returns (chunks: seq<string>)
    requires step != 0
    ensures chunks == Chunks(Split(text), maxWords, step)
  {
    var words := Split(text);
    chunks := [];
    if step > 0 {
      chunks := ChunkWords(words, maxWords, step);
    }
  }

  /** One turn of the loop of `chunk_paper_sections`: the entry of section `j` is first set
      to `{}`, a zero step raises, and otherwise the entry is filled with the section's chunks,
      which extends the dictionary of the first `j` sections by section `j`. */
  method AddSection(keys: seq<string>, contents: seq<string>, maxWords: int, step: int, j: nat,
                    chunks: OrderedMap<seq<string>>)
    returns (r: Result<OrderedMap<seq<string>>>)
    requires |contents| == |keys| && j < |keys|
    requires ChunkedUpTo(keys, contents, maxWords, step, j) == Ok(chunks)
    ensures r == ChunkedUpTo(keys, contents, maxWords, step, j + 1)
  {
    var section := keys[j];
    var next := Put(chunks, section, []);
    if step == 0 {
      return Err(ValueError(ZeroStepMessage));
    }
    var sectionChunks := ChunkSection(contents[j], maxWords, step);
    PutTwice(chunks, section, [], sectionChunks);
    next := Put(next, section, sectionChunks);
    r := Ok(next);
  }

  /** The loop of `chunk_paper_sections` over the pairs of `paper_dict.items()`. */
  method ChunkItems(keys: seq<string>, contents: seq<string>, maxWords: int, overlap: int)
    returns (r: Result<OrderedMap<seq<string>>>)
    requires |contents| == |keys|
    ensures r == ChunkedUpTo(keys, contents, maxWords, maxWords - overlap, |keys|)
  {
    var step := maxWords - overlap;
    var chunks: OrderedMap<seq<string>> := Empty();
    var j := 0;
    while j < |keys|
      invariant 0 <= j <= |keys|
      invariant ChunkedUpTo(keys, contents, maxWords, step, j) == Ok(chunks)
    {
      var next := AddSection(keys, contents, maxWords, step, j, chunks);
      if next.Err? {
        return next;
      }
      chunks := next.value;
      j := j + 1;
    }
    r := Ok(chunks);
  }

  /** `chunk_paper_sections(paper_dict, max_words, overlap)` */
  method ChunkPaperSections(paper: OrderedMap<string>, maxWords: int, overlap: int)
    returns (r: Result<OrderedMap<seq<string>>>)
    requires paper.Valid()
    ensures r == ChunkPaper(paper, maxWords, overlap)
  {
    r := ChunkItems(paper.keys, Values(paper), maxWords, overlap);
  }

  lemma MulStrict(a: int, b: int, s: int)
    requires s > 0 && a * s > b * s
    ensures a > b
  {
  }

  lemma NextMultiple(k: nat, step: int)
    ensures (k + 1) * step == k * step + step
  {
  }

  lemma CeilStep(n: nat, step: int, idx: nat)
    requires step > 0 && idx * step < n
    ensures idx < ChunkCount(n, step)
  {
    var q := (n + step - 1) / step;
    assert q * step + (n + step - 1) % step == n + step - 1;
    MulStrict(q, idx, step);
  }

  lemma CeilExact(n: nat, step: int, idx: nat)
    requires step > 0 && n <= idx * step && idx <= ChunkCount(n, step)
    ensures idx == ChunkCount(n, step)
  {
    var q := (n + step - 1) / step;
    assert q * step + (n + step - 1) % step == n + step - 1;
    MulStrict(idx + 1, q, step);
  }

  /** The words of chunk `k`: `words[k*step : k*step + max_words]`, clipped at the end. */
  function WindowWords(words: seq<string>, k: nat, maxWords: nat, step: nat): seq<string>
    requires step > 0 && k * step < |words|
  {
    words[k * step..Min(k * step + maxWords, |words|)]
  }

  /** Each chunk splits back into exactly its window of words, so it has at most `max_words`. */
  lemma ChunkIsWindow(words: seq<string>, maxWords: nat, step: int, k: nat)
    requires step > 0 && forall i :: 0 <= i < |words| ==> IsWord(words[i])
    requires k < ChunkCount(|words|, step)
    ensures k * step < |words|
    ensures Split(Chunks(words, maxWords, step)[k]) == WindowWords(words, k, maxWords, step)
    ensures |Split(Chunks(words, maxWords, step)[k])| <= maxWords
  {
    if k * step >= |words| {
      CeilExact(|words|, step, k);
    }
    var w := WindowWords(words, k, maxWords, step);
    assert PySlice(words, k * step, k * step + maxWords) == w;
    SplitJoin(w);
  }

  /** Consecutive chunks overlap: the words of chunk `k` after its first `step` are the first
      words of chunk `k + 1`, `overlap` of them unless the end of the section comes first. */
  lemma ChunksOverlap(words: seq<string>, maxWords: nat, overlap: nat, k: nat)
    requires maxWords > overlap
    requires (k + 1) * (maxWords - overlap) < |words|
    ensures var step := maxWords - overlap;
      var a := WindowWords(words, k, maxWords, step);
      var b := WindowWords(words, k + 1, maxWords, step);
      |a| - step == Min(overlap, |words| - (k + 1) * step) && a[step..] == b[..|a| - step]
  {
    var step := maxWords - overlap;
    var lo := k * step;
    var mid := (k + 1) * step;
    assert mid == lo + step;
    var a := WindowWords(words, k, maxWords, step);
    var b := WindowWords(words, k + 1, maxWords, step);
    assert a == words[lo..Min(lo + maxWords, |words|)];
    assert b == words[mid..Min(mid + maxWords, |words|)];
    assert |a| - step == Min(overlap, |words| - mid);
    assert a[step..] == words[mid..mid + (|a| - step)];
  }

  /** With a non-negative overlap every word lies in some chunk, the one numbered index / step. */
  lemma ChunksCover(words: seq<string>, maxWords: nat, overlap: nat, w: nat) returns (k: nat)
    requires maxWords > overlap && w < |words|
    ensures k < ChunkCount(|words|, maxWords - overlap)
    ensures k * (maxWords - overlap) <= w < Min(k * (maxWords - overlap) + maxWords, |words|)
    ensures WindowWords(words, k, maxWords, maxWords - overlap)[w - k * (maxWords - overlap)] == words[w]
    ensures k == w / (maxWords - overlap)
  {
    var step := maxWords - overlap;
    k := w / step;
    assert k * step + w % step == w;
    CeilStep(|words|, step, k);
  }
}
