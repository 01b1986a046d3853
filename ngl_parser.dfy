/** The NGL selection-string parser: `pdb_id[.chain[:range]][@highlights]`
    is taken apart into the structure id, the chain, the residue range and
    the atoms and residues to highlight. The file lookup that follows in the
    source is not part of this model. */
module NglParser {
  import opened Results
  import opened Text

  datatype Highlights = Highlights(atoms: string, residues: string)

  datatype Selection = Selection(pdbId: string, chain: string, aaRange: string, highlights: Highlights)

  /** Python's ValueError when `text.split(sep)` does not give exactly the two
      values it is unpacked into. */
  datatype SelectionError = NotTwoParts(text: string, sep: char)

  const All := "ALL"
  const NoHighlights := Highlights("", "")
  const HighlightsSep := '@'
  const AtomIndicator := 'a'

  /** The entries holding the indicator, in order, each with every indicator removed. */
  function AtomEntries(entries: seq<string>, indicator: char): seq<string> {
    if entries == [] then []
    else
      var init := AtomEntries(entries[..|entries| - 1], indicator);
      var e := entries[|entries| - 1];
      if indicator in e then init + [RemoveChar(e, indicator)] else init
  }

  /** The entries without the indicator, in order, unchanged. */
  function ResidueEntries(entries: seq<string>, indicator: char): seq<string> {
    if entries == [] then []
    else
      var init := ResidueEntries(entries[..|entries| - 1], indicator);
      var e := entries[|entries| - 1];
      if indicator in e then init else init + [e]
  }

  lemma {:induction false} EntriesPrefix(entries: seq<string>, indicator: char, i: nat)
    requires i <= |entries|
    ensures var a := AtomEntries(entries[..i], indicator);
      |a| <= |AtomEntries(entries, indicator)| && AtomEntries(entries, indicator)[..|a|] == a
    ensures var s := ResidueEntries(entries[..i], indicator);
      |s| <= |ResidueEntries(entries, indicator)| && ResidueEntries(entries, indicator)[..|s|] == s
    decreases |entries| - i
  {
    if i < |entries| {
      EntriesPrefix(entries, indicator, i + 1);
      assert entries[..i + 1][..i] == entries[..i];
    } else {
      assert entries[..i] == entries;
    }
  }

  /** Every entry lands in exactly one list, in its original relative order:
      an entry holding the indicator is the next atom entry (with the
      indicator removed), any other entry is the next residue entry
      (unchanged); the two lists together are as long as the entries. */
  lemma {:induction false} HighlightsPartition(entries: seq<string>, indicator: char, i: nat)
    requires i < |entries|
    ensures |AtomEntries(entries, indicator)| + |ResidueEntries(entries, indicator)| == |entries|
    ensures var a := |AtomEntries(entries[..i], indicator)|;
      && a + |ResidueEntries(entries[..i], indicator)| == i
      && (indicator in entries[i] ==>
            a < |AtomEntries(entries, indicator)|
            && AtomEntries(entries, indicator)[a] == RemoveChar(entries[i], indicator))
      && (indicator !in entries[i] ==>
            i - a < |ResidueEntries(entries, indicator)|
            && ResidueEntries(entries, indicator)[i - a] == entries[i])
  {
    EntriesLength(entries, indicator);
    EntriesLength(entries[..i], indicator);
    EntriesPrefix(entries, indicator, i + 1);
    assert entries[..i + 1][..i] == entries[..i];
    assert entries[..i + 1][i] == entries[i];
  }

  lemma {:induction false} EntriesLength(entries: seq<string>, indicator: char)
    ensures |AtomEntries(entries, indicator)| + |ResidueEntries(entries, indicator)| == |entries|
  {
    if entries != [] {
      EntriesLength(entries[..|entries| - 1], indicator);
    }
  }

  /** No stored entry holds the indicator or a comma, when the entries held no comma. */
  lemma {:induction false} EntriesClean(entries: seq<string>, indicator: char)
    requires forall e <- entries :: ',' !in e
    ensures forall e <- AtomEntries(entries, indicator) :: indicator !in e && ',' !in e
    ensures forall e <- ResidueEntries(entries, indicator) :: indicator !in e && ',' !in e
  {
    if entries != [] {
      var init := entries[..|entries| - 1];
      assert forall e <- init :: e in entries;
      EntriesClean(init, indicator);
      var e := entries[|entries| - 1];
      assert e in entries;
      RemoveCharKeeps(e, indicator, ',');
    }
  }

  lemma {:induction false} RemoveCharKeeps(s: string, c: char, d: char)
    requires d !in s
    ensures d !in RemoveChar(s, c)
  {
    if s != [] {
      RemoveCharKeeps(s[1..], c, d);
    }
  }

  /** What `get_highlights` returns: the text before the one separator, and
      the comma-joined atom and residue entries of the text after it. */
  function Highlighted(s: string, sep: char, indicator: char): Result<(string, Highlights), SelectionError> {
    var parts := SplitOn(s, sep);
    if |parts| != 2 then Err(NotTwoParts(s, sep))
    else
      var entries := SplitOn(parts[1], ',');
      Ok((parts[0], Highlights(Join(AtomEntries(entries, indicator), ','),
                               Join(ResidueEntries(entries, indicator), ','))))
  }

  /** The joined lists can be split back into the entries they came from,
      and each is empty exactly when it has no entry. */
  lemma {:induction false} HighlightsRecoverable(s: string, sep: char, indicator: char)
    requires Highlighted(s, sep, indicator).Ok?
    ensures var entries := SplitOn(SplitOn(s, sep)[1], ',');
      var h := Highlighted(s, sep, indicator).value.1;
      && (AtomEntries(entries, indicator) != [] ==> SplitOn(h.atoms, ',') == AtomEntries(entries, indicator))
      && (ResidueEntries(entries, indicator) != [] ==> SplitOn(h.residues, ',') == ResidueEntries(entries, indicator))
      && (AtomEntries(entries, indicator) == [] ==> h.atoms == "")
      && (ResidueEntries(entries, indicator) == [] ==> h.residues == "")
  {
    var entries := SplitOn(SplitOn(s, sep)[1], ',');
    EntriesClean(entries, indicator);
    if AtomEntries(entries, indicator) != [] {
      SplitOnJoin(AtomEntries(entries, indicator), ',');
    }
    if ResidueEntries(entries, indicator) != [] {
      SplitOnJoin(ResidueEntries(entries, indicator), ',');
    }
  }

  /** `get_highlights`: split once on the separator, then sort the
      comma-separated entries after it into atoms and residues. */
  method GetHighlights(s: string, sep: char, indicator: char)
    returns (r: Result<(string, Highlights), SelectionError>)
    ensures r == Highlighted(s, sep, indicator)
    ensures r.Ok? <==> multiset(s)[sep] == 1
    ensures r.Ok? ==> sep !in r.value.0 && s == r.value.0 + [sep] + SplitOn(s, sep)[1]
  {
    var parts := SplitOn(s, sep);
    SplitOnCount(s, sep);
    if |parts| != 2 {
      return Err(NotTwoParts(s, sep));
    }
    JoinSplitOn(s, sep);
    assert Join(parts, sep) == parts[0] + [sep] + Join(parts[1..], sep);
    var entries := SplitOn(parts[1], ',');
    var atomsList: seq<string> := [];
    var residuesList: seq<string> := [];
    var i := 0;
    while i < |entries|
      invariant i <= |entries|
      invariant atomsList == AtomEntries(entries[..i], indicator)
      invariant residuesList == ResidueEntries(entries[..i], indicator)
    {
      var e := entries[i];
      assert entries[..i + 1][..i] == entries[..i];
      if indicator in e {
        atomsList := atomsList + [RemoveChar(e, indicator)];
      } else {
        residuesList := residuesList + [e];
      }
      i := i + 1;
    }
    assert entries[..i] == entries;
    r := Ok((parts[0], Highlights(Join(atomsList, ','), Join(residuesList, ','))));
  }

  /** The selection once `get_highlights` has run on the range (`ofRange`)
      or on the chain part: what precedes '@' becomes the range or the chain. */
  function WithHighlights(h: Result<(string, Highlights), SelectionError>, pdbId: string, chain: string, ofRange: bool)
    : Result<Selection, SelectionError>
  {
    match h
    case Err(e) => Err(e)
    case Ok((rest, hl)) => Ok(if ofRange then Selection(pdbId, chain, rest, hl) else Selection(pdbId, rest, All, hl))
  }

  /** The selection-string part of `get_data`. Without '.' everything is
      selected. With '.', the id must split into exactly two parts; a chain
      part with ':' splits into chain and range and only the range may carry
      highlights; a chain part without ':' may carry highlights itself, and
      the range stays "ALL". */
  method ParseSelection(pdbId: string) returns (r: Result<Selection, SelectionError>)
    ensures '.' !in pdbId ==> r == Ok(Selection(pdbId, All, All, NoHighlights))
    ensures '.' in pdbId ==>
      var ids := SplitOn(pdbId, '.');
      && (|ids| != 2 ==> r == Err(NotTwoParts(pdbId, '.')))
      && (|ids| == 2 && ':' in ids[1] ==>
            var cr := SplitOn(ids[1], ':');
            && (|cr| != 2 ==> r == Err(NotTwoParts(ids[1], ':')))
            && (|cr| == 2 && HighlightsSep !in cr[1] ==> r == Ok(Selection(ids[0], cr[0], cr[1], NoHighlights)))
            && (|cr| == 2 && HighlightsSep in cr[1] ==>
                  r == WithHighlights(Highlighted(cr[1], HighlightsSep, AtomIndicator), ids[0], cr[0], true)))
      && (|ids| == 2 && ':' !in ids[1] && HighlightsSep !in ids[1] ==> r == Ok(Selection(ids[0], ids[1], All, NoHighlights)))
      && (|ids| == 2 && ':' !in ids[1] && HighlightsSep in ids[1] ==>
            r == WithHighlights(Highlighted(ids[1], HighlightsSep, AtomIndicator), ids[0], "", false))
    ensures r.Ok? && '.' in pdbId ==>
      '.' !in r.value.pdbId && pdbId == r.value.pdbId + "." + SplitOn(pdbId, '.')[1]
  {
    var id := pdbId;
    var chain := All;
    var aaRange := All;
    var highlights := NoHighlights;
    if '.' in id {
      var ids := SplitOn(id, '.');
      if |ids| != 2 {
        return Err(NotTwoParts(id, '.'));
      }
      JoinSplitOn(pdbId, '.');
      assert Join(ids, '.') == ids[0] + ['.'] + Join(ids[1..], '.');
      id, chain := ids[0], ids[1];
      if ':' in chain {
        var cr := SplitOn(chain, ':');
        if |cr| != 2 {
          return Err(NotTwoParts(chain, ':'));
        }
        chain, aaRange := cr[0], cr[1];
        if HighlightsSep in aaRange {
          var h := GetHighlights(aaRange, HighlightsSep, AtomIndicator);
          if h.Err? {
            return Err(h.error);
          }
          aaRange, highlights := h.value.0, h.value.1;
        }
      } else {
        if HighlightsSep in chain {
          var h := GetHighlights(chain, HighlightsSep, AtomIndicator);
          if h.Err? {
            return Err(h.error);
          }
          chain, highlights := h.value.0, h.value.1;
        }
      }
    }
    r := Ok(Selection(id, chain, aaRange, highlights));
  }
}
