/** The mmCIF parser: scans the ATOM/HETATM records of a structure file,
    numbers residues densely, and merges the atoms with the bond list of an
    external bond-topology resolver into one graph `{atoms, bonds}`.

    The file arrives as its lines; the resolver's bonds arrive as the pair of
    string forms of each bond's two ends; Python's `float()` is a parameter. */
module MmcifParser {
  import opened Results
  import opened Text

  // Token positions of the fields of an atom record.
  const SerialPos := 1
  const AtomTypePos := 2
  const AtomNamePos := 3
  const ResNamePos := 5
  const ChainPos := 6
  const XPos := 10
  const YPos := 11
  const ZPos := 12
  const OccupancyPos := 13
  const BFactorPos := 14
  const ResIdPos := 16

  /** Python's `float()` on a token: `None` where it would raise. */
  type FloatParser = string -> Option<real>

  datatype Position = Position(x: real, y: real, z: real)

  /** One ATOM/HETATM line, as the scan loop collects it into its parallel lists. */
  datatype AtomRecord = AtomRecord(
    serial: int, name: string, residueName: string, chain: string, residueSeq: int,
    position: Position, occupancy: string, tempFactor: string, element: string)

  /** One entry of the output's `atoms` list. */
  datatype Atom = Atom(
    name: string, chain: string, position: Position, residueIndex: int,
    element: string, residueName: string, serial: nat)

  /** One entry of the output's `bonds` list. */
  datatype Bond = Bond(atom1Index: nat, atom2Index: nat)

  datatype Graph = Graph(atoms: seq<Atom>, bonds: seq<Bond>)

  /** Why a record line was refused: an index past the end of the token list
      (IndexError) or a token `int()`/`float()` rejects (ValueError). */
  datatype FieldError = MissingField(pos: nat) | NotAnInteger(pos: nat) | NotAFloat(pos: nat)

  datatype ParseError =
    | MalformedRecord(line: string, reason: FieldError)
    | EmptyInput
    | BondIndexUnresolvable(bond: nat, end: string)

  /** What the scan loop leaves behind: the records and the chain ids in the
      order they were first seen. */
  datatype ScanOutput = ScanOutput(records: seq<AtomRecord>, chains: seq<string>)

  // ---------------------------------------------------------------------
  // Reading the lines

  /** A line as `strip()` leaves a non-blank one: not empty, no whitespace at either end. */
  predicate IsStrippedLine(l: string) {
    l != [] && !IsSpace(l[0]) && !IsSpace(l[|l| - 1])
  }

  /** The stripped non-blank lines of the file, in file order. */
  function NonBlankLines(raw: seq<string>): (lines: seq<string>)
    ensures forall i :: 0 <= i < |lines| ==> IsStrippedLine(lines[i])
  {
    if raw == [] then []
    else
      var first := Strip(raw[0]);
      var rest := NonBlankLines(raw[1..]);
      if first == [] then rest else [first] + rest
  }

  /** No line is dropped except the blank ones: each non-blank line is kept, stripped. */
  lemma {:induction false} NonBlankLinesKeeps(raw: seq<string>, i: nat)
    requires i < |raw| && !AllSpace(raw[i])
    ensures Strip(raw[i]) in NonBlankLines(raw)
  {
    var rest := NonBlankLines(raw[1..]);
    if i > 0 {
      assert raw[1..][i - 1] == raw[i];
      NonBlankLinesKeeps(raw[1..], i - 1);
      assert Strip(raw[i]) in rest;
    } else {
      assert Strip(raw[0]) != [];
      assert NonBlankLines(raw) == [Strip(raw[0])] + rest;
    }
  }

  /** Without blank lines, the lines are only stripped: same count, same order. */
  lemma {:induction false} NonBlankLinesNoBlank(raw: seq<string>)
    requires forall l <- raw :: !AllSpace(l)
    ensures |NonBlankLines(raw)| == |raw|
    ensures forall i :: 0 <= i < |raw| ==> NonBlankLines(raw)[i] == Strip(raw[i])
  {
    if raw != [] {
      assert raw[0] in raw;
      assert forall l <- raw[1..] :: l in raw;
      NonBlankLinesNoBlank(raw[1..]);
    }
  }

  // ---------------------------------------------------------------------
  // The record scanner

  /** The first token contains "ATOM" or "HETATM" (a substring test). */
  predicate IsAtomLine(line: string) {
    var t := Words(line);
    t != [] && (Contains(t[0], "ATOM") || Contains(t[0], "HETATM"))
  }

  /** The fields of the tokens of one qualifying line, failing where the
      source's statements would raise, in the order they run. The source's
      `.strip()` on each text token is left out: tokens of `split()` have no
      whitespace to strip (`TokensAreStripped`). */
  function ParseFields(t: seq<string>, toFloat: FloatParser): Result<AtomRecord, FieldError> {
    if |t| <= SerialPos then Err(MissingField(SerialPos))
    else if ParseInt(t[SerialPos]).None? then Err(NotAnInteger(SerialPos))
    else if |t| <= AtomNamePos then Err(MissingField(AtomNamePos))
    else if |t| <= ResNamePos then Err(MissingField(ResNamePos))
    else if |t| <= ChainPos then Err(MissingField(ChainPos))
    else if |t| <= ResIdPos then Err(MissingField(ResIdPos))
    else if ParseInt(t[ResIdPos]).None? then Err(NotAnInteger(ResIdPos))
    else if toFloat(t[XPos]).None? then Err(NotAFloat(XPos))
    else if toFloat(t[YPos]).None? then Err(NotAFloat(YPos))
    else if toFloat(t[ZPos]).None? then Err(NotAFloat(ZPos))
    else
      Ok(AtomRecord(
        ParseInt(t[SerialPos]).value, t[AtomNamePos], t[ResNamePos], t[ChainPos],
        ParseInt(t[ResIdPos]).value,
        Position(toFloat(t[XPos]).value, toFloat(t[YPos]).value, toFloat(t[ZPos]).value),
        t[OccupancyPos], t[BFactorPos], t[AtomTypePos]))
  }

  /** A line is accepted exactly when it has all 17 positions, integers at
      positions 1 and 16 and floats at 10 to 12; a line with too few tokens
      is refused, never skipped. The record's fields are the tokens at the
      fixed positions. */
  lemma {:induction false} ParseFieldsContract(t: seq<string>, toFloat: FloatParser)
    ensures var r := ParseFields(t, toFloat);
      && (r.Ok? <==> (
            && |t| > ResIdPos && ParseInt(t[SerialPos]).Some? && ParseInt(t[ResIdPos]).Some?
            && toFloat(t[XPos]).Some? && toFloat(t[YPos]).Some? && toFloat(t[ZPos]).Some?))
      && (r.Ok? ==> (
            && r.value.serial == ParseInt(t[SerialPos]).value
            && r.value.name == t[AtomNamePos] && r.value.residueName == t[ResNamePos]
            && r.value.chain == t[ChainPos] && r.value.residueSeq == ParseInt(t[ResIdPos]).value
            && r.value.position == Position(toFloat(t[XPos]).value, toFloat(t[YPos]).value, toFloat(t[ZPos]).value)
            && r.value.occupancy == t[OccupancyPos] && r.value.tempFactor == t[BFactorPos]
            && r.value.element == t[AtomTypePos]))
      && (SerialPos < |t| <= ResIdPos && ParseInt(t[SerialPos]).Some? ==> r.Err? && r.error.MissingField?)
  {
  }

  /** Stripping a token of `split()` leaves it unchanged. */
  lemma {:induction false} TokensAreStripped(line: string)
    ensures forall w <- Words(line) :: Strip(w) == w
  {
    forall w <- Words(line) ensures Strip(w) == w {
      StripNoSpace(w);
    }
  }

  /** The record of one qualifying line: its whitespace tokens, parsed. */
  function ParseRecord(line: string, toFloat: FloatParser): Result<AtomRecord, FieldError> {
    ParseFields(Words(line), toFloat)
  }

  /** What scanning the lines yields: the records of the qualifying lines in
      file order, or the error of the first qualifying line that is malformed. */
  function ScanLines(lines: seq<string>, toFloat: FloatParser): Result<seq<AtomRecord>, ParseError> {
    if lines == [] then Ok([])
    else
      match ScanLines(lines[..|lines| - 1], toFloat)
      case Err(e) => Err(e)
      case Ok(recs) =>
        var l := lines[|lines| - 1];
        if !IsAtomLine(l) then Ok(recs)
        else
          match ParseRecord(l, toFloat)
          case Err(why) => Err(MalformedRecord(l, why))
          case Ok(rec) => Ok(recs + [rec])
  }

  /** The qualifying lines, in file order. */
  function AtomLines(lines: seq<string>): (r: seq<string>)
    ensures |r| <= |lines|
    ensures forall l <- r :: IsAtomLine(l) && l in lines
  {
    if lines == [] then []
    else
      var init := AtomLines(lines[..|lines| - 1]);
      assert forall l <- lines[..|lines| - 1] :: l in lines;
      if IsAtomLine(lines[|lines| - 1]) then init + [lines[|lines| - 1]] else init
  }

  /** Every qualifying line is one of `AtomLines`. */
  lemma {:induction false} AtomLinesComplete(lines: seq<string>, i: nat)
    requires i < |lines| && IsAtomLine(lines[i])
    ensures lines[i] in AtomLines(lines)
  {
    if i < |lines| - 1 {
      var init := lines[..|lines| - 1];
      assert init[i] == lines[i];
      AtomLinesComplete(init, i);
    }
  }

  /** A line that is not blank always has a first token, so qualification is
      decided by the marker test alone. */
  lemma {:induction false} AtomLineMarker(line: string)
    requires !AllSpace(line)
    ensures Words(line) != []
    ensures IsAtomLine(line) <==>
      (Contains(Words(line)[0], "ATOM") || Contains(Words(line)[0], "HETATM"))
  {
    WordsOfNonBlank(line);
  }

  /** A qualifying line parses (lines that do not qualify are never parsed). */
  predicate LineAccepted(line: string, toFloat: FloatParser) {
    IsAtomLine(line) ==> ParseRecord(line, toFloat).Ok?
  }

  /** A qualifying line that does not parse makes the whole scan fail. */
  lemma {:induction false} RejectedLineFails(lines: seq<string>, i: nat, toFloat: FloatParser)
    requires i < |lines| && !LineAccepted(lines[i], toFloat)
    ensures ScanLines(lines, toFloat).Err?
  {
    var p := lines[..i + 1];
    assert p[..i] == lines[..i];
    assert p[i] == lines[i];
    assert ScanLines(p, toFloat).Err?;
    ScanLinesErrorSticks(lines, i + 1, toFloat);
  }

  lemma {:induction false} ScanLinesOkAccepts(lines: seq<string>, toFloat: FloatParser)
    ensures ScanLines(lines, toFloat).Ok? ==> forall i :: 0 <= i < |lines| ==> LineAccepted(lines[i], toFloat)
  {
    forall i | 0 <= i < |lines| && !LineAccepted(lines[i], toFloat)
      ensures ScanLines(lines, toFloat).Err?
    {
      RejectedLineFails(lines, i, toFloat);
    }
  }

  /** A successful scan yields one record per qualifying line, in order, each
      the parse of its line. */
  lemma {:induction false} ScanLinesRecords(lines: seq<string>, toFloat: FloatParser)
    requires ScanLines(lines, toFloat).Ok?
    ensures var recs := ScanLines(lines, toFloat).value;
      && |recs| == |AtomLines(lines)|
      && forall k :: 0 <= k < |recs| ==> ParseRecord(AtomLines(lines)[k], toFloat) == Ok(recs[k])
  {
    if lines != [] {
      var init := lines[..|lines| - 1];
      var l := lines[|lines| - 1];
      assert ScanLines(init, toFloat).Ok?;
      ScanLinesRecords(init, toFloat);
      var recs0 := ScanLines(init, toFloat).value;
      if IsAtomLine(l) {
        var rec := ParseRecord(l, toFloat).value;
        assert ScanLines(lines, toFloat).value == recs0 + [rec];
        assert AtomLines(lines) == AtomLines(init) + [l];
      }
    }
  }

  /** An error reports the first qualifying line that does not parse, with its reason. */
  lemma {:induction false} ScanLinesFirstError(lines: seq<string>, toFloat: FloatParser)
    requires ScanLines(lines, toFloat).Err?
    ensures var e := ScanLines(lines, toFloat).error;
      && e.MalformedRecord?
      && exists i :: (
           && 0 <= i < |lines| && lines[i] == e.line && IsAtomLine(lines[i])
           && ParseRecord(lines[i], toFloat) == Err(e.reason)
           && forall j :: 0 <= j < i ==> LineAccepted(lines[j], toFloat))
  {
    var init := lines[..|lines| - 1];
    assert forall i :: 0 <= i < |init| ==> init[i] == lines[i];
    var e := ScanLines(lines, toFloat).error;
    if ScanLines(init, toFloat).Err? {
      ScanLinesFirstError(init, toFloat);
      var i :| (
        && 0 <= i < |init| && init[i] == e.line && IsAtomLine(init[i])
        && ParseRecord(init[i], toFloat) == Err(e.reason)
        && forall j :: 0 <= j < i ==> LineAccepted(init[j], toFloat));
      assert lines[i] == e.line;
    } else {
      ScanLinesOkAccepts(init, toFloat);
      var i := |lines| - 1;
      assert IsAtomLine(lines[i]) && ParseRecord(lines[i], toFloat) == Err(e.reason);
    }
  }

  /** Once a prefix of the lines fails, the whole scan fails with the same error. */
  lemma {:induction false} ScanLinesErrorSticks(lines: seq<string>, n: nat, toFloat: FloatParser)
    requires n <= |lines| && ScanLines(lines[..n], toFloat).Err?
    ensures ScanLines(lines, toFloat) == ScanLines(lines[..n], toFloat)
    decreases |lines| - n
  {
    if n < |lines| {
      assert lines[..n + 1][..n] == lines[..n];
      ScanLinesErrorSticks(lines, n + 1, toFloat);
    } else {
      assert lines[..n] == lines;
    }
  }

  /** The scan succeeds exactly when every qualifying line parses. */
  lemma {:induction false} ScanLinesOk(lines: seq<string>, toFloat: FloatParser)
    ensures ScanLines(lines, toFloat).Ok? <==>
      forall i :: 0 <= i < |lines| ==> LineAccepted(lines[i], toFloat)
  {
    ScanLinesOkAccepts(lines, toFloat);
    if ScanLines(lines, toFloat).Err? {
      ScanLinesFirstError(lines, toFloat);
    }
  }

  /** Distinct chain ids of the records, in order of first appearance. */
  function FirstSeenChains(recs: seq<AtomRecord>): seq<string> {
    if recs == [] then []
    else
      var seen := FirstSeenChains(recs[..|recs| - 1]);
      var c := recs[|recs| - 1].chain;
      if c in seen then seen else seen + [c]
  }

  predicate HasChain(recs: seq<AtomRecord>, c: string) {
    exists k :: 0 <= k < |recs| && recs[k].chain == c
  }

  /** The first-seen chain list holds every chain of the records exactly once. */
  lemma {:induction false} FirstSeenChainsDistinct(recs: seq<AtomRecord>)
    ensures var cs := FirstSeenChains(recs);
      && (forall i, j :: 0 <= i < j < |cs| ==> cs[i] != cs[j])
      && (forall c :: c in cs <==> HasChain(recs, c))
  {
    if recs != [] {
      var init := recs[..|recs| - 1];
      var last := recs[|recs| - 1];
      FirstSeenChainsDistinct(init);
      var cs0 := FirstSeenChains(init);
      var cs := FirstSeenChains(recs);
      forall c ensures HasChain(recs, c) <==> HasChain(init, c) || c == last.chain {
        if HasChain(init, c) {
          var k :| 0 <= k < |init| && init[k].chain == c;
          assert recs[k].chain == c;
        }
        if HasChain(recs, c) && c != last.chain {
          var k :| 0 <= k < |recs| && recs[k].chain == c;
          assert init[k].chain == c;
        }
        if c == last.chain {
          assert recs[|recs| - 1].chain == c;
        }
      }
      if last.chain !in cs0 {
        forall i, j | 0 <= i < j < |cs| ensures cs[i] != cs[j] {
          if j == |cs| - 1 {
            assert cs[i] == cs0[i];
          }
        }
      }
    }
  }

  /** The scan loop: for each line whose first token carries the marker, pull
      the fields out by position and record any chain id not seen before. */
  method ScanRecords(lines: seq<string>, toFloat: FloatParser) returns (r: Result<ScanOutput, ParseError>)
    ensures r.Ok? <==> ScanLines(lines, toFloat).Ok?
    ensures r.Err? ==> r.error == ScanLines(lines, toFloat).error
    ensures r.Ok? ==> (
      && r.value.records == ScanLines(lines, toFloat).value
      && r.value.chains == FirstSeenChains(r.value.records))
  {
    var records: seq<AtomRecord> := [];
    var chains: seq<string> := [];
    var i := 0;
    while i < |lines|
      invariant i <= |lines|
      invariant ScanLines(lines[..i], toFloat) == Ok(records)
      invariant chains == FirstSeenChains(records)
    {
      var l := lines[i];
      assert lines[..i + 1][..i] == lines[..i];
      if IsAtomLine(l) {
        var parsed := ParseRecord(l, toFloat);
        if parsed.Err? {
          ScanLinesErrorSticks(lines, i + 1, toFloat);
          return Err(MalformedRecord(l, parsed.error));
        }
        var rec := parsed.value;
        if rec.chain !in chains {
          chains := chains + [rec.chain];
        }
        ghost var before := records;
        records := records + [rec];
        assert records[..|records| - 1] == before;
      }
      i := i + 1;
    }
    assert lines[..i] == lines;
    r := Ok(ScanOutput(records, chains));
  }

  // ---------------------------------------------------------------------
  // Residue numbering and atom assembly

  /** The atom built from record `rec` at output position `i`: serial `i`,
      name, chain, position and element copied, the given residue index, and
      the residue label: the residue name followed by `str` of the residue number. */
  function AtomOf(rec: AtomRecord, i: nat, residueIndex: int): Atom {
    Atom(rec.name, rec.chain, rec.position, residueIndex, rec.element,
         rec.residueName + IntToString(rec.residueSeq), i)
  }

  /** 1 where the residue number differs from the preceding record's, else 0. */
  function ResidueStep(prev: AtomRecord, rec: AtomRecord): nat {
    if rec.residueSeq != prev.residueSeq then 1 else 0
  }

  /** How many times the residue number changes between consecutive records among the first n + 1. */
  function ResidueChanges(recs: seq<AtomRecord>, n: nat): nat
    requires n < |recs|
  {
    if n == 0 then 0 else ResidueChanges(recs, n - 1) + ResidueStep(recs[n - 1], recs[n])
  }

  /** `atoms` is built from the first `|atoms|` records, each with residue
      index 1 plus the residue-number changes up to it. */
  predicate AtomsPrefixOf(recs: seq<AtomRecord>, atoms: seq<Atom>) {
    && |atoms| <= |recs|
    && forall i {:trigger atoms[i]} :: 0 <= i < |atoms| ==> atoms[i] == AtomOf(recs[i], i, 1 + ResidueChanges(recs, i))
  }

  /** `atoms` is what the source builds from all of `recs`. */
  predicate AtomsOf(recs: seq<AtomRecord>, atoms: seq<Atom>) {
    |atoms| == |recs| && AtomsPrefixOf(recs, atoms)
  }

  /** The counter starts at 1 and moves up by one exactly where the residue
      number differs from the preceding record's. */
  lemma {:induction false} ResidueIndexSteps(recs: seq<AtomRecord>, atoms: seq<Atom>, i: nat)
    requires AtomsOf(recs, atoms) && i < |atoms|
    ensures i == 0 ==> atoms[i].residueIndex == 1
    ensures i > 0 ==> (
      && (recs[i].residueSeq == recs[i - 1].residueSeq ==> atoms[i].residueIndex == atoms[i - 1].residueIndex)
      && (recs[i].residueSeq != recs[i - 1].residueSeq ==> atoms[i].residueIndex == atoms[i - 1].residueIndex + 1))
  {
  }

  /** Between record j and record n there are at most n - j changes. */
  lemma {:induction false} ResidueChangesBetween(recs: seq<AtomRecord>, j: nat, n: nat)
    requires j <= n < |recs|
    ensures ResidueChanges(recs, j) <= ResidueChanges(recs, n) <= ResidueChanges(recs, j) + (n - j)
    decreases n
  {
    if j < n {
      ResidueChangesBetween(recs, j, n - 1);
    }
  }

  /** The residue indices never decrease, and the index at position i is
      between 1 and i + 1. */
  lemma {:induction false} ResidueIndexCounts(recs: seq<AtomRecord>, atoms: seq<Atom>, j: nat, i: nat)
    requires AtomsOf(recs, atoms) && j <= i < |atoms|
    ensures atoms[j].residueIndex <= atoms[i].residueIndex
    ensures 1 <= atoms[i].residueIndex <= i + 1
  {
    ResidueChangesBetween(recs, j, i);
    ResidueChangesBetween(recs, 0, i);
  }

  /** Residue numbering is not scoped by chain: the last atom of one chain and
      the first of the next share a residue index when their residue numbers are equal. */
  lemma {:induction false} ResidueIndexIgnoresChain(recs: seq<AtomRecord>, atoms: seq<Atom>, i: nat)
    requires AtomsOf(recs, atoms) && 0 < i < |atoms|
    requires recs[i].chain != recs[i - 1].chain && recs[i].residueSeq == recs[i - 1].residueSeq
    ensures atoms[i].residueIndex == atoms[i - 1].residueIndex
  {
  }

  lemma {:induction false} AtomsPrefixExtend(recs: seq<AtomRecord>, atoms: seq<Atom>, a: Atom)
    requires AtomsPrefixOf(recs, atoms) && |atoms| < |recs|
    requires a == AtomOf(recs[|atoms|], |atoms|, 1 + ResidueChanges(recs, |atoms|))
    ensures AtomsPrefixOf(recs, atoms + [a])
  {
    assert forall i :: 0 <= i < |atoms| ==> (atoms + [a])[i] == atoms[i];
  }

  /** The atom-list loop: `tmp_res` remembers the last residue number, `resct`
      the residue index. With no records there is no `res_id[0]` to start from. */
  method BuildAtoms(recs: seq<AtomRecord>) returns (r: Result<seq<Atom>, ParseError>)
    ensures r.Err? <==> recs == []
    ensures r.Err? ==> r.error == EmptyInput
    ensures r.Ok? ==> AtomsOf(recs, r.value)
  {
    if recs == [] {
      return Err(EmptyInput);
    }
    var tmpRes := recs[0].residueSeq;
    var resct := 1;
    var atoms: seq<Atom> := [];
    var i := 0;
    while i < |recs|
      invariant i <= |recs| && |atoms| == i
      invariant AtomsPrefixOf(recs, atoms)
      invariant i == 0 ==> tmpRes == recs[0].residueSeq && resct == 1
      invariant i > 0 ==> tmpRes == recs[i - 1].residueSeq && resct == 1 + ResidueChanges(recs, i - 1)
    {
      var rec := recs[i];
      if tmpRes != rec.residueSeq {
        tmpRes := rec.residueSeq;
        resct := resct + 1;
      }
      assert resct == 1 + ResidueChanges(recs, i);
      var atom := AtomOf(rec, i, resct);
      AtomsPrefixExtend(recs, atoms, atom);
      atoms := atoms + [atom];
      i := i + 1;
    }
    r := Ok(atoms);
  }

  // ---------------------------------------------------------------------
  // Bond index extraction

  /** Length of the longest prefix of `s` made of ASCII digits. */
  function DigitRun(s: string): (n: nat)
    ensures n <= |s| && AllDigits(s[..n])
    ensures n < |s| ==> !IsDigit(s[n])
  {
    if s == [] || !IsDigit(s[0]) then 0 else 1 + DigitRun(s[1..])
  }

  /** The number of a match of `\[(\d+)\]` starting at index `p`, if one starts there. */
  function BracketedAt(s: string, p: nat): Option<nat> {
    if p < |s| && s[p] == '[' then
      var t := s[p + 1..];
      var n := DigitRun(t);
      if 0 < n < |t| && t[n] == ']' then Some(DigitsValue(t[..n])) else None
    else None
  }

  /** The number of the leftmost match of `\[(\d+)\]` at or after index `p`. */
  function FirstBracketedFrom(s: string, p: nat): Option<nat>
    requires p <= |s|
    decreases |s| - p
  {
    if p == |s| then None
    else if BracketedAt(s, p).Some? then BracketedAt(s, p)
    else FirstBracketedFrom(s, p + 1)
  }

  /** `FirstBracketedFrom` is `None` exactly when no match starts at or after `p`. */
  lemma {:induction false} FirstBracketedNone(s: string, p: nat)
    requires p <= |s|
    ensures FirstBracketedFrom(s, p).None? <==> forall q :: p <= q < |s| ==> BracketedAt(s, q).None?
    decreases |s| - p
  {
    if p < |s| {
      FirstBracketedNone(s, p + 1);
    }
  }

  /** Otherwise it is the number of a match before which none starts: the leftmost one. */
  lemma {:induction false} FirstBracketedLeftmost(s: string, p: nat)
    requires p <= |s| && FirstBracketedFrom(s, p).Some?
    ensures exists q :: (
      && p <= q < |s| && BracketedAt(s, q) == FirstBracketedFrom(s, p)
      && forall q' :: p <= q' < q ==> BracketedAt(s, q').None?)
    decreases |s| - p
  {
    if BracketedAt(s, p).Some? {
      assert BracketedAt(s, p) == FirstBracketedFrom(s, p);
    } else {
      FirstBracketedLeftmost(s, p + 1);
      var q :| (
        && p + 1 <= q < |s| && BracketedAt(s, q) == FirstBracketedFrom(s, p + 1)
        && forall q' :: p + 1 <= q' < q ==> BracketedAt(s, q').None?);
    }
  }

  /** `re.findall(r"\[(\d+)\]", s)[0]` read as an integer; `None` where the source fails. */
  function BondEndIndex(s: string): Option<nat> {
    FirstBracketedFrom(s, 0)
  }

  lemma {:induction false} FirstBracketedSkips(s: string, q: nat, p: nat)
    requires q <= p < |s|
    requires forall q' :: q <= q' < p ==> BracketedAt(s, q').None?
    ensures FirstBracketedFrom(s, q) == FirstBracketedFrom(s, p)
    decreases p - q
  {
    if q < p {
      assert BracketedAt(s, q).None?;
      assert FirstBracketedFrom(s, q) == FirstBracketedFrom(s, q + 1);
      FirstBracketedSkips(s, q + 1, p);
    }
  }

  lemma {:induction false} DigitRunOfDigits(d: string, t: string)
    requires AllDigits(d)
    requires t == [] || !IsDigit(t[0])
    ensures DigitRun(d + t) == |d|
  {
    if d != [] {
      assert (d + t)[1..] == d[1..] + t;
      DigitRunOfDigits(d[1..], t);
    }
  }

  /** An end whose text has no '[' before "[n]" resolves to n, whatever follows. */
  lemma {:induction false} BondEndIndexOf(prefix: string, n: nat, suffix: string)
    requires '[' !in prefix
    ensures BondEndIndex(prefix + "[" + NatToDigits(n) + "]" + suffix) == Some(n)
  {
    var d := NatToDigits(n);
    NatToDigitsValue(n);
    var s := prefix + "[" + d + "]" + suffix;
    var p := |prefix|;
    var t := s[p + 1..];
    assert s[p] == '[';
    assert t == d + ("]" + suffix);
    DigitRunOfDigits(d, "]" + suffix);
    assert t[..|d|] == d;
    assert BracketedAt(s, p) == Some(n);
    forall q | 0 <= q < p ensures BracketedAt(s, q).None? {
      assert s[q] == prefix[q];
    }
    FirstBracketedSkips(s, 0, p);
  }

  /** Both ends of the resolver bond carry a bracketed index. */
  predicate Resolvable(ends: (string, string)) {
    BondEndIndex(ends.0).Some? && BondEndIndex(ends.1).Some?
  }

  predicate AllBondsResolvable(ends: seq<(string, string)>) {
    forall i :: 0 <= i < |ends| ==> Resolvable(ends[i])
  }

  /** The bond built from a resolver bond: the first end's index is stored as
      `atom2Index` and the second end's as `atom1Index`. */
  predicate BondFrom(ends: (string, string), b: Bond) {
    Some(b.atom2Index) == BondEndIndex(ends.0) && Some(b.atom1Index) == BondEndIndex(ends.1)
  }

  /** One bond per resolver bond, in resolver order. */
  predicate BondsOf(ends: seq<(string, string)>, bonds: seq<Bond>) {
    |bonds| == |ends| && forall i :: 0 <= i < |bonds| ==> BondFrom(ends[i], bonds[i])
  }

  /** The bond loop. The first end's index is read first, so when both ends
      lack an index the error names the first end. */
  method BuildBonds(ends: seq<(string, string)>) returns (r: Result<seq<Bond>, ParseError>)
    ensures r.Ok? <==> AllBondsResolvable(ends)
    ensures r.Ok? ==> BondsOf(ends, r.value)
    ensures r.Err? ==> (
      && r.error.BondIndexUnresolvable? && r.error.bond < |ends|
      && (forall j :: 0 <= j < r.error.bond ==> Resolvable(ends[j]))
      && (if BondEndIndex(ends[r.error.bond].0).None? then r.error.end == ends[r.error.bond].0
          else BondEndIndex(ends[r.error.bond].1).None? && r.error.end == ends[r.error.bond].1))
  {
    var bonds: seq<Bond> := [];
    var i := 0;
    while i < |ends|
      invariant i <= |ends| && |bonds| == i
      invariant forall j :: 0 <= j < i ==> Resolvable(ends[j]) && BondFrom(ends[j], bonds[j])
    {
      var atom1 := BondEndIndex(ends[i].0);
      var atom2 := BondEndIndex(ends[i].1);
      if atom1.None? {
        return Err(BondIndexUnresolvable(i, ends[i].0));
      }
      if atom2.None? {
        return Err(BondIndexUnresolvable(i, ends[i].1));
      }
      bonds := bonds + [Bond(atom2.value, atom1.value)];
      i := i + 1;
    }
    r := Ok(bonds);
  }

  // ---------------------------------------------------------------------
  // The whole parse

  /** `create_data`: scan the non-blank lines, number the residues, then
      convert the resolver's bonds; the first failure aborts the whole call. */
  method CreateData(raw: seq<string>, bondEnds: seq<(string, string)>, toFloat: FloatParser)
    returns (r: Result<Graph, ParseError>)
    ensures var scan := ScanLines(NonBlankLines(raw), toFloat);
      && (scan.Err? ==> r == Err(scan.error))
      && (scan == Ok([]) ==> r == Err(EmptyInput))
      && (scan.Ok? && scan.value != [] ==>
            && (r.Ok? <==> AllBondsResolvable(bondEnds))
            && (r.Err? ==> (
                  && r.error.BondIndexUnresolvable? && r.error.bond < |bondEnds|
                  && !Resolvable(bondEnds[r.error.bond])
                  && forall j :: 0 <= j < r.error.bond ==> Resolvable(bondEnds[j])))
            && (r.Ok? ==> AtomsOf(scan.value, r.value.atoms) && BondsOf(bondEnds, r.value.bonds)))
    ensures r.Ok? ==> 0 < |r.value.atoms| == |AtomLines(NonBlankLines(raw))|
  {
    var lines := NonBlankLines(raw);
    var scan := ScanRecords(lines, toFloat);
    if scan.Err? {
      return Err(scan.error);
    }
    var atoms := BuildAtoms(scan.value.records);
    if atoms.Err? {
      return Err(atoms.error);
    }
    var bonds := BuildBonds(bondEnds);
    if bonds.Err? {
      return Err(bonds.error);
    }
    ScanLinesRecords(lines, toFloat);
    r := Ok(Graph(atoms.value, bonds.value));
  }
}
