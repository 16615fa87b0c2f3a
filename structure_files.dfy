/** The line scanners of `tools/file_tools.py` over CIF files and RASPA `.def` files.
    A file is the sequence of its lines as `readlines()` gives them (newlines kept);
    `None` stands for a file that does not exist. Each scanner walks the lines once, flipping
    a flag at a start marker and clearing it (or stopping) at an end marker. */
module StructureFiles {
  import opened Wrappers
  import opened PyStr

  const AtomSiteMarker := "_atom_site"
  const LoopMarker := "loop_"
  const AtomicPositionsMarker := "# atomic positions"
  const TypeMarker := "# type"
  const PseudoTypeMarker := "#type"


  // ---------------------------------------------------------------------
  // The CIF atom-site block: on from an `_atom_site` line, off again at a `loop_` line.

  /** The value of `structure_started` after the first `n` lines. */
  function CifStarted(ls: seq<string>, n: nat): bool
    requires n <= |ls|
  {
    if n == 0 then false
    else
      var before := CifStarted(ls, n - 1);
      var l := ls[n - 1];
      if StartsWith(l, AtomSiteMarker) then true
      else if before && StartsWith(l, LoopMarker) then false
      else before
  }

  /** Line `i` is reached with the flag on and is neither a marker nor a `loop_` line. */
  predicate InCifBlock(ls: seq<string>, i: nat)
    requires i < |ls|
  {
    CifStarted(ls, i) && !StartsWith(ls[i], AtomSiteMarker) && !StartsWith(ls[i], LoopMarker)
  }

  /** The lines among the first `n` that lie inside atom-site blocks, in file order. */
  function CifBlockLines(ls: seq<string>, n: nat): (r: seq<string>)
    requires n <= |ls|
    ensures |r| <= n
  {
    if n == 0 then []
    else if InCifBlock(ls, n - 1) then CifBlockLines(ls, n - 1) + [ls[n - 1]]
    else CifBlockLines(ls, n - 1)
  }

  /** All lines of the file that lie inside atom-site blocks. */
  function CifBlock(ls: seq<string>): seq<string> {
    CifBlockLines(ls, |ls|)
  }

  /** A line whose second token `read_atoms_in_file` collects. */
  predicate HasSecondToken(l: string, minTokens: nat) {
    |Split(l)| > minTokens && |Split(l)| > 1
  }

  /** The second token of every block line with more than `minTokens` tokens. */
  function SecondTokens(block: seq<string>, minTokens: nat): set<string> {
    set l | l in block && HasSecondToken(l, minTokens) :: Split(l)[1]
  }

  /** What `read_atoms_in_file` returns for a `.cif` file. */
  function CifAtoms(ls: seq<string>): set<string> {
    SecondTokens(CifBlock(ls), 2)
  }

  /** How many block lines start with `atomType`. */
  function CountPrefixed(block: seq<string>, atomType: string): (n: nat)
    ensures n <= |block|
  {
    if block == [] then 0
    else CountPrefixed(block[..|block| - 1], atomType) + (if StartsWith(block[|block| - 1], atomType) then 1 else 0)
  }

  // ---------------------------------------------------------------------
  // Sections of `.def` files: on from a marker line, stopping for good at the first end line.

  /** Where a line ends a section: at a `#` line, or at a line shorter than two characters. */
  datatype StopRule = HashLine | ShortLine

  predicate Stops(rule: StopRule, l: string) {
    match rule
    case HashLine => StartsWith(l, "#")
    case ShortLine => |l| < 2
  }

  /** Before the first marker, inside the section, or past the `break`. */
  datatype Phase = Before | Inside | Done

  /** The phase of a scan with a `break` after the first `n` lines; a marker line is tested
      first. */
  function PhaseAfter(ls: seq<string>, n: nat, marker: string, rule: StopRule): Phase
    requires n <= |ls|
  {
    if n == 0 then Before
    else
      var p := PhaseAfter(ls, n - 1, marker, rule);
      var l := ls[n - 1];
      if p == Done then Done
      else if StartsWith(l, marker) then Inside
      else if p == Inside && Stops(rule, l) then Done
      else p
  }

  predicate InSection(ls: seq<string>, i: nat, marker: string, rule: StopRule)
    requires i < |ls|
  {
    PhaseAfter(ls, i, marker, rule) == Inside && !StartsWith(ls[i], marker) && !Stops(rule, ls[i])
  }

  /** The content lines of the section among the first `n` lines, in file order. */
  function SectionLines(ls: seq<string>, n: nat, marker: string, rule: StopRule): (r: seq<string>)
    requires n <= |ls|
    ensures |r| <= n
  {
    if n == 0 then []
    else if InSection(ls, n - 1, marker, rule) then SectionLines(ls, n - 1, marker, rule) + [ls[n - 1]]
    else SectionLines(ls, n - 1, marker, rule)
  }

  /** The content lines of the section in the whole file. */
  function Section(ls: seq<string>, marker: string, rule: StopRule): seq<string> {
    SectionLines(ls, |ls|, marker, rule)
  }

  /** What `read_atoms_in_file` returns for a `.def` file. */
  function DefAtoms(ls: seq<string>): set<string> {
    SecondTokens(Section(ls, AtomicPositionsMarker, HashLine), 1)
  }

  /** `line.split()[:2]` */
  function FirstTwo(l: string): (r: seq<string>)
    ensures |r| <= 2 && |r| <= |Split(l)| && r == Split(l)[..|r|]
    ensures |r| < 2 ==> r == Split(l)
  {
    var parts := Split(l);
    if |parts| < 2 then parts else parts[..2]
  }

  /** Every token among the first two of some line of the block. */
  function FirstTwoTokens(block: seq<string>): set<string> {
    set l, x | l in block && x in FirstTwo(l) :: x
  }

  /** What `get_force_field_atoms` returns, as a set (`list(set(...))` has no defined order). */
  function ForceFieldAtoms(ls: seq<string>): set<string> {
    FirstTwoTokens(Section(ls, TypeMarker, HashLine))
  }

  /** `line.split()[0]` of every line, or the IndexError of a line without a token. */
  function FirstTokens(block: seq<string>): Result<seq<string>> {
    if forall i :: 0 <= i < |block| ==> Split(block[i]) != [] then
      Ok(seq(|block|, i requires 0 <= i < |block| && Split(block[i]) != [] => Split(block[i])[0]))
    else Err(IndexError)
  }

  // ---------------------------------------------------------------------
  // The scanners

  /** The `.cif` branch of `read_atoms_in_file`. */
  method ScanCifAtoms(lines: seq<string>) returns (atoms: set<string>)
    ensures atoms == CifAtoms(lines)
  {
    atoms := {};
    var structureStarted := false;
    var i := 0;
    while i < |lines|
      invariant 0 <= i <= |lines|
      invariant structureStarted == CifStarted(lines, i)
      invariant atoms == SecondTokens(CifBlockLines(lines, i), 2)
    {
      var line := lines[i];
      SecondTokensSnoc(CifBlockLines(lines, i), line, 2);
      if StartsWith(line, AtomSiteMarker) {
        structureStarted := true;
      } else if structureStarted && StartsWith(line, LoopMarker) {
        structureStarted := false;
      } else if structureStarted {
        var parts := Split(line);
        if |parts| > 2 {
          atoms := atoms + {parts[1]};
        }
      }
      i := i + 1;
    }
  }

  /** The `.def` branch of `read_atoms_in_file`. */
  method ScanDefAtoms(lines: seq<string>) returns (atoms: set<string>)
    ensures atoms == DefAtoms(lines)
  {
    atoms := {};
    var atomsStarted := false;
    var i := 0;
    while i < |lines|
      invariant 0 <= i <= |lines|
      invariant PhaseAfter(lines, i, AtomicPositionsMarker, HashLine) == (if atomsStarted then Inside else Before)
      invariant atoms == SecondTokens(SectionLines(lines, i, AtomicPositionsMarker, HashLine), 1)
    {
      var line := lines[i];
      if StartsWith(line, AtomicPositionsMarker) {
        atomsStarted := true;
      } else if atomsStarted && StartsWith(line, "#") {
        atomsStarted := false;
        DoneStays(lines, i + 1, |lines|, AtomicPositionsMarker, HashLine);
        return;
      } else if atomsStarted {
        var parts := Split(line);
        SecondTokensSnoc(SectionLines(lines, i, AtomicPositionsMarker, HashLine), line, 1);
        if |parts| > 1 {
          atoms := atoms + {parts[1]};
        }
      }
      i := i + 1;
    }
  }

  /** `read_atoms_in_file`: a `.cif` or `.def` file is read (it must exist); for any other name
      the set `atoms` is never bound and the return raises. */
  method ReadAtomsInFile(filename: string, file: Option<seq<string>>) returns (r: Result<set<string>>)
    ensures EndsWith(filename, ".cif") ==>
              r == (if file.None? then Err(FileNotFoundError) else Ok(CifAtoms(file.value)))
    ensures !EndsWith(filename, ".cif") && EndsWith(filename, ".def") ==>
              r == (if file.None? then Err(FileNotFoundError) else Ok(DefAtoms(file.value)))
    ensures !EndsWith(filename, ".cif") && !EndsWith(filename, ".def") ==> r == Err(UnboundLocalError("atoms"))
  {
    if EndsWith(filename, ".cif") {
      if file.None? { return Err(FileNotFoundError); }
      var atoms := ScanCifAtoms(file.value);
      r := Ok(atoms);
    } else if EndsWith(filename, ".def") {
      if file.None? { return Err(FileNotFoundError); }
      var atoms := ScanDefAtoms(file.value);
      r := Ok(atoms);
    } else {
      r := Err(UnboundLocalError("atoms"));
    }
  }

  /** `count_atom_type_in_cif`: 0 for a missing file, otherwise the number of atom-site block
      lines that start with `atomType`, which is at most the number of block lines. */
  method CountAtomTypeInCif(file: Option<seq<string>>, atomType: string) returns (cnt: nat)
    ensures file.None? ==> cnt == 0
    ensures file.Some? ==> cnt == CountPrefixed(CifBlock(file.value), atomType)
    ensures file.Some? ==> cnt <= |CifBlock(file.value)| <= |file.value|
  {
    if file.None? {
      return 0;
    }
    var lines := file.value;
    cnt := 0;
    var structureStarted := false;
    var i := 0;
    while i < |lines|
      invariant 0 <= i <= |lines|
      invariant structureStarted == CifStarted(lines, i)
      invariant cnt == CountPrefixed(CifBlockLines(lines, i), atomType)
    {
      var line := lines[i];
      CountPrefixedSnoc(CifBlockLines(lines, i), line, atomType);
      if StartsWith(line, AtomSiteMarker) {
        structureStarted := true;
      } else if structureStarted && StartsWith(line, LoopMarker) {
        structureStarted := false;
      } else if structureStarted && StartsWith(line, atomType) {
        cnt := cnt + 1;
      }
      i := i + 1;
    }
  }

  /** `get_force_field_atoms`: the first two tokens of every line of the `# type` section. */
  method GetForceFieldAtoms(file: Option<seq<string>>) returns (r: Result<set<string>>)
    ensures file.None? ==> r == Err(FileNotFoundError)
    ensures file.Some? ==> r == Ok(ForceFieldAtoms(file.value))
  {
    if file.None? {
      return Err(FileNotFoundError);
    }
    var lines := file.value;
    var interactions: set<string> := {};
    var started := false;
    var i := 0;
    while i < |lines|
      invariant 0 <= i <= |lines|
      invariant PhaseAfter(lines, i, TypeMarker, HashLine) == (if started then Inside else Before)
      invariant interactions == FirstTwoTokens(SectionLines(lines, i, TypeMarker, HashLine))
    {
      var line := lines[i];
      if StartsWith(line, TypeMarker) {
        started := true;
      } else if started && StartsWith(line, "#") {
        DoneStays(lines, i + 1, |lines|, TypeMarker, HashLine);
        return Ok(interactions);
      } else if started {
        var parts := Split(line);
        var firstTwo := if |parts| < 2 then parts else parts[..2];
        FirstTwoTokensSnoc(SectionLines(lines, i, TypeMarker, HashLine), line);
        interactions := interactions + set x | x in firstTwo;
      }
      i := i + 1;
    }
    r := Ok(interactions);
  }

  /** `get_force_field_mixing_atoms`: the first token of every line of the `# type` section, in
      order and with duplicates; a section line without a token raises IndexError. */
  method GetForceFieldMixingAtoms(file: Option<seq<string>>) returns (r: Result<seq<string>>)
    ensures file.None? ==> r == Err(FileNotFoundError)
    ensures file.Some? ==> r == FirstTokens(Section(file.value, TypeMarker, HashLine))
  {
    if file.None? {
      return Err(FileNotFoundError);
    }
    r := ScanFirstTokens(file.value, TypeMarker, HashLine);
  }

  /** `get_pseudo_atoms`: as the mixing scan, but from `#type` up to a line shorter than two. */
  method GetPseudoAtoms(file: Option<seq<string>>) returns (r: Result<seq<string>>)
    ensures file.None? ==> r == Err(FileNotFoundError)
    ensures file.Some? ==> r == FirstTokens(Section(file.value, PseudoTypeMarker, ShortLine))
  {
    if file.None? {
      return Err(FileNotFoundError);
    }
    r := ScanFirstTokens(file.value, PseudoTypeMarker, ShortLine);
  }

  /** The loop shared by `get_force_field_mixing_atoms` and `get_pseudo_atoms`. */
  method ScanFirstTokens(lines: seq<string>, marker: string, rule: StopRule) returns (r: Result<seq<string>>)
    ensures r == FirstTokens(Section(lines, marker, rule))
  {
    var interactions: seq<string> := [];
    var started := false;
    var i := 0;
    assert FirstTokens([]).Ok? && |FirstTokens([]).value| == 0;
    while i < |lines|
      invariant 0 <= i <= |lines|
      invariant PhaseAfter(lines, i, marker, rule) == (if started then Inside else Before)
      invariant FirstTokens(SectionLines(lines, i, marker, rule)) == Ok(interactions)
    {
      var line := lines[i];
      if StartsWith(line, marker) {
        started := true;
      } else if started && Stops(rule, line) {
        DoneStays(lines, i + 1, |lines|, marker, rule);
        return Ok(interactions);
      } else if started {
        var parts := Split(line);
        FirstTokensSnoc(SectionLines(lines, i, marker, rule), line);
        if parts == [] {
          FirstTokensErrStays(lines, i + 1, |lines|, marker, rule);
          return Err(IndexError);
        }
        interactions := interactions + [parts[0]];
      }
      i := i + 1;
    }
    r := Ok(interactions);
  }

  /** The atoms `get_atoms_in_ff_file` returns: a set for force_field.def, a list otherwise. */
  datatype FfAtoms = AtomSet(atoms: set<string>) | AtomList(list: seq<string>)

  /** `get_atoms_in_ff_file`: only the three force-field file names are accepted. */
  method GetAtomsInFfFile(fileName: string, file: Option<seq<string>>) returns (r: Result<FfAtoms>)
    ensures fileName !in {"force_field.def", "pseudo_atoms.def", "force_field_mixing_rules.def"} ==>
              r == Err(AssertionError)
    ensures fileName == "force_field.def" && file.Some? ==> r == Ok(AtomSet(ForceFieldAtoms(file.value)))
    ensures fileName == "pseudo_atoms.def" && file.Some? ==>
              r.Ok? == FirstTokens(Section(file.value, PseudoTypeMarker, ShortLine)).Ok?
              && (r.Ok? ==> r.value == AtomList(FirstTokens(Section(file.value, PseudoTypeMarker, ShortLine)).value))
    ensures fileName == "force_field_mixing_rules.def" && file.Some? ==>
              r.Ok? == FirstTokens(Section(file.value, TypeMarker, HashLine)).Ok?
              && (r.Ok? ==> r.value == AtomList(FirstTokens(Section(file.value, TypeMarker, HashLine)).value))
    ensures fileName in {"force_field.def", "pseudo_atoms.def", "force_field_mixing_rules.def"} && file.None? ==>
              r == Err(FileNotFoundError)
  {
    if fileName !in {"force_field.def", "pseudo_atoms.def", "force_field_mixing_rules.def"} {
      return Err(AssertionError);
    }
    if fileName == "force_field.def" {
      var atoms := GetForceFieldAtoms(file);
      r := if atoms.Ok? then Ok(AtomSet(atoms.value)) else Err(atoms.error);
    } else if fileName == "pseudo_atoms.def" {
      var atoms := GetPseudoAtoms(file);
      r := if atoms.Ok? then Ok(AtomList(atoms.value)) else Err(atoms.error);
    } else {
      var atoms := GetForceFieldMixingAtoms(file);
      r := if atoms.Ok? then Ok(AtomList(atoms.value)) else Err(atoms.error);
    }
  }

  // ---------------------------------------------------------------------
  // Lemmas used by the loops

  lemma SecondTokensSnoc(block: seq<string>, l: string, minTokens: nat)
    ensures SecondTokens(block + [l], minTokens)
         == SecondTokens(block, minTokens) + (if HasSecondToken(l, minTokens) then {Split(l)[1]} else {})
  {
    forall x | x in SecondTokens(block + [l], minTokens)
      ensures x in SecondTokens(block, minTokens) || (HasSecondToken(l, minTokens) && x == Split(l)[1])
    {
      var m :| m in block + [l] && HasSecondToken(m, minTokens) && Split(m)[1] == x;
      if m != l {
        assert m in block;
      }
    }
  }

  lemma FirstTwoTokensSnoc(block: seq<string>, l: string)
    ensures FirstTwoTokens(block + [l]) == FirstTwoTokens(block) + (set x | x in FirstTwo(l))
  {
    forall x | x in FirstTwoTokens(block + [l]) ensures x in FirstTwoTokens(block) || x in FirstTwo(l) {
      var m :| m in block + [l] && x in FirstTwo(m);
      if m != l {
        assert m in block;
      }
    }
  }

  lemma FirstTokensSnoc(block: seq<string>, l: string)
    ensures FirstTokens(block + [l]) ==
      match FirstTokens(block)
      case Err(e) => Err(e)
      case Ok(front) => if Split(l) == [] then Err(IndexError) else Ok(front + [Split(l)[0]])
  {
    var b := block + [l];
    assert forall i :: 0 <= i < |block| ==> b[i] == block[i];
    assert b[|block|] == l;
    if FirstTokens(block).Err? {
      var i :| 0 <= i < |block| && Split(block[i]) == [];
      assert Split(b[i]) == [];
    } else if Split(l) != [] {
      assert FirstTokens(b).value == FirstTokens(block).value + [Split(l)[0]];
    }
  }

  lemma CountPrefixedSnoc(block: seq<string>, l: string, atomType: string)
    ensures CountPrefixed(block + [l], atomType)
         == CountPrefixed(block, atomType) + (if StartsWith(l, atomType) then 1 else 0)
  {
    assert (block + [l])[..|block|] == block;
  }

  /** After the `break`, no later line belongs to the section. */
  lemma {:induction false} DoneStays(ls: seq<string>, k: nat, n: nat, marker: string, rule: StopRule)
    requires k <= n <= |ls|
    requires PhaseAfter(ls, k, marker, rule) == Done
    ensures PhaseAfter(ls, n, marker, rule) == Done
    ensures SectionLines(ls, n, marker, rule) == SectionLines(ls, k, marker, rule)
  {
    if k < n {
      DoneStays(ls, k, n - 1, marker, rule);
    }
  }

  /** Once a section line without a token is reached, the scan's result is that IndexError. */
  lemma {:induction false} FirstTokensErrStays(ls: seq<string>, k: nat, n: nat, marker: string, rule: StopRule)
    requires k <= n <= |ls|
    requires FirstTokens(SectionLines(ls, k, marker, rule)).Err?
    ensures FirstTokens(SectionLines(ls, n, marker, rule)) == Err(IndexError)
  {
    if k < n {
      FirstTokensErrStays(ls, k, n - 1, marker, rule);
      FirstTokensSnoc(SectionLines(ls, n - 1, marker, rule), ls[n - 1]);
    }
  }

  // ---------------------------------------------------------------------
  // What the scanners select, stated without the fold

  /** Some `_atom_site` line before line `i` has no `loop_` line after it, up to `i`. */
  predicate AtomSiteOpen(ls: seq<string>, i: nat)
    requires i <= |ls|
  {
    exists j :: 0 <= j < i && StartsWith(ls[j], AtomSiteMarker) && NoLoopBetween(ls, j, i)
  }

  predicate NoLoopBetween(ls: seq<string>, j: nat, i: nat)
    requires j < i <= |ls|
  {
    forall k :: j < k < i ==> !StartsWith(ls[k], LoopMarker)
  }

  /** The flag of the CIF scanner, without the fold. */
  lemma {:induction false} CifStartedIff(ls: seq<string>, i: nat)
    requires i <= |ls|
    ensures CifStarted(ls, i) <==> AtomSiteOpen(ls, i)
  {
    if i > 0 {
      var n := i - 1;
      CifStartedIff(ls, n);
      if StartsWith(ls[n], AtomSiteMarker) {
        assert NoLoopBetween(ls, n, i);
      } else {
        if AtomSiteOpen(ls, i) {
          var j :| 0 <= j < i && StartsWith(ls[j], AtomSiteMarker) && NoLoopBetween(ls, j, i);
          assert j < n && NoLoopBetween(ls, j, n);
          assert !StartsWith(ls[n], LoopMarker);
        }
        if CifStarted(ls, i) {
          var j :| 0 <= j < n && StartsWith(ls[j], AtomSiteMarker) && NoLoopBetween(ls, j, n);
          assert NoLoopBetween(ls, j, i);
        }
      }
    }
  }

  lemma {:induction false} CifBlockLinesIff(ls: seq<string>, n: nat, x: string)
    requires n <= |ls|
    ensures x in CifBlockLines(ls, n) <==> exists i :: 0 <= i < n && InCifBlock(ls, i) && ls[i] == x
  {
    if n > 0 {
      CifBlockLinesIff(ls, n - 1, x);
    }
  }

  /** `read_atoms_in_file` on a `.cif` file, without the fold: `x` is returned exactly when some
      line `i` lies after an `_atom_site` line with no `loop_` line in between, is itself neither
      kind of marker, and has more than two tokens, the second being `x`. */
  lemma CifAtomsIff(ls: seq<string>, x: string)
    ensures x in CifAtoms(ls) <==>
      exists i :: 0 <= i < |ls| && AtomSiteOpen(ls, i)
        && !StartsWith(ls[i], AtomSiteMarker) && !StartsWith(ls[i], LoopMarker)
        && HasSecondToken(ls[i], 2) && Split(ls[i])[1] == x
  {
    forall i | 0 <= i < |ls| ensures InCifBlock(ls, i) <==>
        AtomSiteOpen(ls, i) && !StartsWith(ls[i], AtomSiteMarker) && !StartsWith(ls[i], LoopMarker) {
      CifStartedIff(ls, i);
    }
    if x in CifAtoms(ls) {
      var l :| l in CifBlock(ls) && HasSecondToken(l, 2) && Split(l)[1] == x;
      CifBlockLinesIff(ls, |ls|, l);
    }
    if exists i :: 0 <= i < |ls| && AtomSiteOpen(ls, i)
        && !StartsWith(ls[i], AtomSiteMarker) && !StartsWith(ls[i], LoopMarker)
        && HasSecondToken(ls[i], 2) && Split(ls[i])[1] == x {
      var i :| 0 <= i < |ls| && AtomSiteOpen(ls, i)
        && !StartsWith(ls[i], AtomSiteMarker) && !StartsWith(ls[i], LoopMarker)
        && HasSecondToken(ls[i], 2) && Split(ls[i])[1] == x;
      CifBlockLinesIff(ls, |ls|, ls[i]);
    }
  }

  /** Line `j` is the first marker line. */
  predicate FirstMarkerAt(ls: seq<string>, j: nat, marker: string)
    requires j < |ls|
  {
    StartsWith(ls[j], marker) && forall k :: 0 <= k < j ==> !StartsWith(ls[k], marker)
  }

  /** No line strictly between `j` and `i` ends the section. */
  predicate NoStopBetween(ls: seq<string>, j: nat, i: nat, marker: string, rule: StopRule)
    requires j < i <= |ls|
  {
    forall k :: j < k < i ==> StartsWith(ls[k], marker) || !Stops(rule, ls[k])
  }

  /** A section scan is still before its section exactly when no marker line has been seen. */
  lemma {:induction false} BeforeIff(ls: seq<string>, i: nat, marker: string, rule: StopRule)
    requires i <= |ls|
    ensures PhaseAfter(ls, i, marker, rule) == Before <==> forall k :: 0 <= k < i ==> !StartsWith(ls[k], marker)
  {
    if i > 0 {
      BeforeIff(ls, i - 1, marker, rule);
    }
  }

  /** After the first marker line `j`, the scan is inside its section exactly when no end line
      has come since (a repeated marker line does not end it). */
  lemma {:induction false} InsideIff(ls: seq<string>, j: nat, i: nat, marker: string, rule: StopRule)
    requires j < i <= |ls| && FirstMarkerAt(ls, j, marker)
    ensures PhaseAfter(ls, i, marker, rule) == Inside <==> NoStopBetween(ls, j, i, marker, rule)
  {
    var n := i - 1;
    BeforeIff(ls, n, marker, rule);
    if n > j {
      InsideIff(ls, j, n, marker, rule);
      assert PhaseAfter(ls, n, marker, rule) != Before by {
        assert StartsWith(ls[j], marker);
      }
      assert NoStopBetween(ls, j, i, marker, rule) <==>
        NoStopBetween(ls, j, n, marker, rule) && (StartsWith(ls[n], marker) || !Stops(rule, ls[n]));
    }
  }

  lemma {:induction false} SectionLinesIff(ls: seq<string>, n: nat, marker: string, rule: StopRule, x: string)
    requires n <= |ls|
    ensures x in SectionLines(ls, n, marker, rule) <==>
      exists i :: 0 <= i < n && InSection(ls, i, marker, rule) && ls[i] == x
  {
    if n > 0 {
      SectionLinesIff(ls, n - 1, marker, rule, x);
    }
  }

  /** The lines a section scan keeps, without the fold: a line after the first marker line `j`
      with no end line in between, which is itself neither a marker nor an end line. Lines
      before the first marker, or in a file without one, are never kept. */
  lemma SectionMemberIff(ls: seq<string>, marker: string, rule: StopRule, i: nat)
    requires i < |ls|
    ensures InSection(ls, i, marker, rule) <==>
      exists j :: 0 <= j < i && FirstMarkerAt(ls, j, marker) && NoStopBetween(ls, j, i, marker, rule)
        && !StartsWith(ls[i], marker) && !Stops(rule, ls[i])
  {
    BeforeIff(ls, i, marker, rule);
    if InSection(ls, i, marker, rule) {
      var k :| 0 <= k < i && StartsWith(ls[k], marker);
      var j := FirstMarker(ls, k, marker);
      InsideIff(ls, j, i, marker, rule);
    }
    if exists j :: 0 <= j < i && FirstMarkerAt(ls, j, marker) && NoStopBetween(ls, j, i, marker, rule) {
      var j :| 0 <= j < i && FirstMarkerAt(ls, j, marker) && NoStopBetween(ls, j, i, marker, rule);
      InsideIff(ls, j, i, marker, rule);
    }
  }

  /** The first marker line, given that line `k` is one. */
  lemma {:induction false} FirstMarker(ls: seq<string>, k: nat, marker: string) returns (j: nat)
    requires k < |ls| && StartsWith(ls[k], marker)
    ensures j <= k && FirstMarkerAt(ls, j, marker)
  {
    j := k;
    while j > 0 && exists m :: 0 <= m < j && StartsWith(ls[m], marker)
      invariant j <= k && StartsWith(ls[j], marker)
    {
      var m :| 0 <= m < j && StartsWith(ls[m], marker);
      j := m;
    }
  }

  /** `get_force_field_atoms` without the fold: `x` is returned exactly when it is one of the
      first two tokens of a content line of the `# type` section. */
  lemma ForceFieldAtomsIff(ls: seq<string>, x: string)
    ensures x in ForceFieldAtoms(ls) <==>
      exists i :: 0 <= i < |ls| && InSection(ls, i, TypeMarker, HashLine) && x in FirstTwo(ls[i])
  {
    if x in ForceFieldAtoms(ls) {
      var l :| l in Section(ls, TypeMarker, HashLine) && x in FirstTwo(l);
      SectionLinesIff(ls, |ls|, TypeMarker, HashLine, l);
    }
    if exists i :: 0 <= i < |ls| && InSection(ls, i, TypeMarker, HashLine) && x in FirstTwo(ls[i]) {
      var i :| 0 <= i < |ls| && InSection(ls, i, TypeMarker, HashLine) && x in FirstTwo(ls[i]);
      SectionLinesIff(ls, |ls|, TypeMarker, HashLine, ls[i]);
    }
  }

  /** `read_atoms_in_file` on a `.def` file without the fold: `x` is returned exactly when it is
      the second token of a content line of the `# atomic positions` section that has more
      than one token. */
  lemma DefAtomsIff(ls: seq<string>, x: string)
    ensures x in DefAtoms(ls) <==>
      exists i :: 0 <= i < |ls| && InSection(ls, i, AtomicPositionsMarker, HashLine)
        && HasSecondToken(ls[i], 1) && Split(ls[i])[1] == x
  {
    if x in DefAtoms(ls) {
      var l :| l in Section(ls, AtomicPositionsMarker, HashLine) && HasSecondToken(l, 1) && Split(l)[1] == x;
      SectionLinesIff(ls, |ls|, AtomicPositionsMarker, HashLine, l);
    }
    if exists i :: 0 <= i < |ls| && InSection(ls, i, AtomicPositionsMarker, HashLine)
        && HasSecondToken(ls[i], 1) && Split(ls[i])[1] == x {
      var i :| 0 <= i < |ls| && InSection(ls, i, AtomicPositionsMarker, HashLine)
        && HasSecondToken(ls[i], 1) && Split(ls[i])[1] == x;
      SectionLinesIff(ls, |ls|, AtomicPositionsMarker, HashLine, ls[i]);
    }
  }

  /** A file without the marker line yields an empty section. */
  lemma NoMarkerNoSection(ls: seq<string>, marker: string, rule: StopRule)
    requires forall k :: 0 <= k < |ls| ==> !StartsWith(ls[k], marker)
    ensures Section(ls, marker, rule) == []
  {
    if Section(ls, marker, rule) != [] {
      var x := Section(ls, marker, rule)[0];
      SectionLinesIff(ls, |ls|, marker, rule, x);
      var i :| 0 <= i < |ls| && InSection(ls, i, marker, rule) && ls[i] == x;
      BeforeIff(ls, i, marker, rule);
    }
  }
}
