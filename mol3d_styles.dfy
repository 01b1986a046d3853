/** The Molecule3dViewer style creator: one style per atom, coloured by
    atom name, residue, residue type or chain through a colour scheme with a
    fixed default colour.

    The module-level colour tables the function reads (`ATOM_COLORS`,
    `RESIDUE_COLORS`, `RESIDUE_TYPE_COLORS`, `CHAIN_COLORS`,
    `AMINO_ACID_CLASSES`) are a parameter. */
module Mol3dStyles {
  import opened Results

  const DefaultColor := "#ABABAB"

  const VisualizationTypes := ["stick", "cartoon", "sphere"]
  const ColorElements := ["atom", "residue", "residue_type", "chain"]

  /** An atom as the caller passes it: a dict from key to value. */
  type AtomDict = map<string, string>

  /** The `color_scheme` argument: `None`, a dict, or a value of another type,
      which is refused only when it is truthy. */
  datatype SchemeArg = NoScheme | Mapping(colors: map<string, string>) | NotAMapping(truthy: bool)

  /** One entry of `AMINO_ACID_CLASSES`: a class name and its amino acids. */
  datatype AminoAcidClass = AminoAcidClass(name: string, members: seq<string>)

  datatype ColorTables = ColorTables(
    atomColors: map<string, string>, residueColors: map<string, string>,
    residueTypeColors: map<string, string>, chainColors: map<string, string>,
    aminoAcidClasses: seq<AminoAcidClass>)

  datatype Style = Style(visualizationType: string, color: string)

  /** The exceptions the function raises: the three argument checks, a
      `.get` on a scheme that is not a dict (AttributeError), and an atom
      without the key the colouring reads (KeyError). */
  datatype StyleError =
    | InvalidVisualizationType
    | InvalidColorElement
    | InvalidColorScheme
    | NoGetMethod
    | MissingAtomKey(atom: nat, key: string)

  /** `m.get(key, '#ABABAB')`. */
  function Lookup(m: map<string, string>, key: string): string {
    if key in m then m[key] else DefaultColor
  }

  /** The atom key each colouring reads. */
  function KeyFor(colorElement: string): string
    requires colorElement in ColorElements
  {
    if colorElement == "atom" then "name"
    else if colorElement == "chain" then "chain"
    else "residue_name"
  }

  /** The default table for each colouring. */
  function DefaultScheme(colorElement: string, tables: ColorTables): map<string, string>
    requires colorElement in ColorElements
  {
    if colorElement == "atom" then tables.atomColors
    else if colorElement == "residue" then tables.residueColors
    else if colorElement == "residue_type" then tables.residueTypeColors
    else tables.chainColors
  }

  /** The amino acids of `m` all take `color`. */
  function Paint(m: map<string, string>, members: seq<string>, color: string): map<string, string> {
    m + map aa | aa in members :: color
  }

  /** The amino acid to colour map built from the classes in order, each class
      painting its members with the scheme's colour for the class. */
  function ClassColors(classes: seq<AminoAcidClass>, scheme: map<string, string>): map<string, string> {
    if classes == [] then map[]
    else
      var last := classes[|classes| - 1];
      Paint(ClassColors(classes[..|classes| - 1], scheme), last.members, Lookup(scheme, last.name))
  }

  predicate InSomeClass(classes: seq<AminoAcidClass>, aa: string) {
    exists k :: 0 <= k < |classes| && aa in classes[k].members
  }

  /** `k` is the last class listing `aa`. */
  predicate LastClassOf(classes: seq<AminoAcidClass>, aa: string, k: int) {
    && 0 <= k < |classes| && aa in classes[k].members
    && forall k' :: k < k' < |classes| ==> aa !in classes[k'].members
  }

  predicate HasMembers(classes: seq<AminoAcidClass>) {
    exists k :: 0 <= k < |classes| && classes[k].members != []
  }

  lemma {:induction false} PaintAt(m: map<string, string>, members: seq<string>, color: string, aa: string)
    ensures aa in Paint(m, members, color) <==> aa in m || aa in members
    ensures aa in members ==> Paint(m, members, color)[aa] == color
    ensures aa !in members && aa in m ==> Paint(m, members, color)[aa] == m[aa]
  {
  }

  /** The residue-type map covers exactly the amino acids of the classes. */
  lemma {:induction false} ClassColorsDomain(classes: seq<AminoAcidClass>, scheme: map<string, string>, aa: string)
    ensures aa in ClassColors(classes, scheme) <==> InSomeClass(classes, aa)
  {
    if classes != [] {
      var n := |classes| - 1;
      var init := classes[..n];
      var before := ClassColors(init, scheme);
      var c := Lookup(scheme, classes[n].name);
      assert ClassColors(classes, scheme) == Paint(before, classes[n].members, c);
      ClassColorsDomain(init, scheme, aa);
      PaintAt(before, classes[n].members, c, aa);
      InSomeClassInit(classes, aa);
    }
  }

  /** `aa` is in some class exactly when it is in an earlier one or in the last. */
  lemma {:induction false} InSomeClassInit(classes: seq<AminoAcidClass>, aa: string)
    requires classes != []
    ensures InSomeClass(classes, aa) <==>
      InSomeClass(classes[..|classes| - 1], aa) || aa in classes[|classes| - 1].members
  {
    var n := |classes| - 1;
    var init := classes[..n];
    if InSomeClass(init, aa) {
      var k :| 0 <= k < |init| && aa in init[k].members;
      assert aa in classes[k].members;
    }
    if InSomeClass(classes, aa) && aa !in classes[n].members {
      var k :| 0 <= k < |classes| && aa in classes[k].members;
      assert aa in init[k].members;
    }
  }

  /** Dropping a later class that does not list `aa` keeps `k` its last class. */
  lemma {:induction false} LastClassOfInit(classes: seq<AminoAcidClass>, aa: string, k: int)
    requires LastClassOf(classes, aa, k) && k < |classes| - 1
    ensures aa !in classes[|classes| - 1].members
    ensures LastClassOf(classes[..|classes| - 1], aa, k)
  {
    var init := classes[..|classes| - 1];
    assert forall k' :: k <= k' < |init| ==> init[k'] == classes[k'];
  }

  /** Each amino acid takes the colour of the last class that lists it, or the
      default colour when the scheme has no entry for that class. */
  lemma {:induction false} ClassColorsLastWins(classes: seq<AminoAcidClass>, scheme: map<string, string>, aa: string, k: int)
    requires LastClassOf(classes, aa, k)
    ensures aa in ClassColors(classes, scheme)
    ensures ClassColors(classes, scheme)[aa] == Lookup(scheme, classes[k].name)
  {
    var n := |classes| - 1;
    var init := classes[..n];
    var before := ClassColors(init, scheme);
    var c := Lookup(scheme, classes[n].name);
    assert ClassColors(classes, scheme) == Paint(before, classes[n].members, c);
    PaintAt(before, classes[n].members, c, aa);
    if k < n {
      LastClassOfInit(classes, aa, k);
      ClassColorsLastWins(init, scheme, aa, k);
    }
  }

  lemma {:induction false} PaintStep(m: map<string, string>, members: seq<string>, j: nat, color: string)
    requires j < |members|
    ensures Paint(m, members[..j + 1], color) == Paint(m, members[..j], color)[members[j] := color]
  {
    assert members[..j + 1] == members[..j] + [members[j]];
  }

  /** The inner loop for one class: each member is set to the scheme's colour
      for the class; a scheme without `.get` fails at the first member. */
  method PaintClass(m: map<string, string>, cls: AminoAcidClass, scheme: Option<map<string, string>>)
    returns (r: Result<map<string, string>, StyleError>)
    ensures r.Err? <==> scheme.None? && cls.members != []
    ensures r.Err? ==> r.error == NoGetMethod
    ensures r.Ok? ==> r.value == Paint(m, cls.members, Lookup(if scheme.Some? then scheme.value else map[], cls.name))
  {
    ghost var c := Lookup(if scheme.Some? then scheme.value else map[], cls.name);
    var painted := m;
    var j := 0;
    while j < |cls.members|
      invariant j <= |cls.members|
      invariant scheme.None? ==> j == 0
      invariant painted == Paint(m, cls.members[..j], c)
    {
      if scheme.None? {
        return Err(NoGetMethod);
      }
      var color := Lookup(scheme.value, cls.name);
      PaintStep(m, cls.members, j, color);
      painted := painted[cls.members[j] := color];
      j := j + 1;
    }
    assert cls.members[..j] == cls.members;
    r := Ok(painted);
  }

  /** The source's nested loop over `AMINO_ACID_CLASSES`: every member of every
      class is set to the scheme's colour for its class, later classes
      overwriting earlier ones. A scheme without `.get` fails at the first member. */
  method ResidueTypeColors(classes: seq<AminoAcidClass>, scheme: Option<map<string, string>>)
    returns (r: Result<map<string, string>, StyleError>)
    ensures r.Err? <==> scheme.None? && HasMembers(classes)
    ensures r.Err? ==> r.error == NoGetMethod
    ensures r.Ok? ==> r.value == ClassColors(classes, if scheme.Some? then scheme.value else map[])
  {
    var colors := if scheme.Some? then scheme.value else map[];
    var m: map<string, string> := map[];
    var i := 0;
    while i < |classes|
      invariant i <= |classes|
      invariant m == ClassColors(classes[..i], colors)
      invariant scheme.None? ==> forall k :: 0 <= k < i ==> classes[k].members == []
    {
      var painted := PaintClass(m, classes[i], scheme);
      if painted.Err? {
        return Err(painted.error);
      }
      assert classes[..i + 1][..i] == classes[..i];
      m := painted.value;
      i := i + 1;
    }
    assert classes[..i] == classes;
    r := Ok(m);
  }

  /** The scheme after `None` is replaced by the default table (a value that
      is not a dict has no `.get`: `None` here). */
  function SchemeInUse(colorElement: string, scheme: SchemeArg, tables: ColorTables): Option<map<string, string>>
    requires colorElement in ColorElements
  {
    match scheme
    case NoScheme => Some(DefaultScheme(colorElement, tables))
    case Mapping(m) => Some(m)
    case NotAMapping(_) => None
  }

  /** The map the atoms are coloured from: the scheme in use, or for
      `residue_type` the amino-acid map built from it. */
  function ColorMap(colorElement: string, scheme: SchemeArg, tables: ColorTables): Option<map<string, string>>
    requires colorElement in ColorElements
  {
    var inUse := SchemeInUse(colorElement, scheme, tables);
    if colorElement != "residue_type" then inUse
    else if inUse.None? && HasMembers(tables.aminoAcidClasses) then None
    else Some(ClassColors(tables.aminoAcidClasses, if inUse.Some? then inUse.value else map[]))
  }

  /** The per-atom loop: one style per atom with the given visualization
      type and the map's colour for the atom's `key`. Looking up `.get` on a
      scheme without one fails before the atom is read; an atom without `key`
      fails. */
  method StyleAtoms(atoms: seq<AtomDict>, visualizationType: string, key: string, colors: Option<map<string, string>>)
    returns (r: Result<seq<Style>, StyleError>)
    ensures r.Ok? <==> atoms == [] || (colors.Some? && forall i :: 0 <= i < |atoms| ==> key in atoms[i])
    ensures r.Ok? ==> (
      && |r.value| == |atoms|
      && forall i :: 0 <= i < |atoms| ==> (
           && colors.Some? && key in atoms[i]
           && r.value[i] == Style(visualizationType, Lookup(colors.value, atoms[i][key]))))
    ensures r.Err? ==> (
      || (r.error == NoGetMethod && colors.None?)
      || (&& r.error.MissingAtomKey? && colors.Some? && r.error.key == key && r.error.atom < |atoms|
          && key !in atoms[r.error.atom]
          && forall j :: 0 <= j < r.error.atom ==> key in atoms[j]))
  {
    var styles: seq<Style> := [];
    var i := 0;
    while i < |atoms|
      invariant i <= |atoms| && |styles| == i
      invariant i > 0 ==> colors.Some?
      invariant forall j :: 0 <= j < i ==> (
        && key in atoms[j]
        && styles[j] == Style(visualizationType, Lookup(colors.value, atoms[j][key])))
    {
      if colors.None? {
        return Err(NoGetMethod);
      }
      if key !in atoms[i] {
        return Err(MissingAtomKey(i, key));
      }
      styles := styles + [Style(visualizationType, Lookup(colors.value, atoms[i][key]))];
      i := i + 1;
    }
    r := Ok(styles);
  }

  /** `create_mol3d_style`: check the arguments, settle the colour map, then
      emit one style per atom, in order, each with the requested
      visualization type and the map's colour for the atom's key. */
  method CreateMol3dStyle(
    tables: ColorTables, atoms: seq<AtomDict>, visualizationType: string := "stick",
    colorElement: string := "atom", scheme: SchemeArg := NoScheme)
    returns (r: Result<seq<Style>, StyleError>)
    ensures r.Ok? <==> (
      && visualizationType in VisualizationTypes && colorElement in ColorElements
      && scheme != NotAMapping(true)
      && (colorElement == "residue_type" && scheme == NotAMapping(false) ==> !HasMembers(tables.aminoAcidClasses))
      && (atoms == [] || (&& ColorMap(colorElement, scheme, tables).Some?
                          && forall i :: 0 <= i < |atoms| ==> KeyFor(colorElement) in atoms[i])))
    ensures visualizationType !in VisualizationTypes ==> r == Err(InvalidVisualizationType)
    ensures visualizationType in VisualizationTypes && colorElement !in ColorElements ==>
      r == Err(InvalidColorElement)
    ensures (visualizationType in VisualizationTypes && colorElement in ColorElements
             && scheme == NotAMapping(true)) ==> r == Err(InvalidColorScheme)
    ensures r.Ok? ==> (
      && colorElement in ColorElements
      && |r.value| == |atoms|
      && forall i :: 0 <= i < |atoms| ==> (
           && ColorMap(colorElement, scheme, tables).Some?
           && KeyFor(colorElement) in atoms[i]
           && r.value[i] == Style(visualizationType,
                Lookup(ColorMap(colorElement, scheme, tables).value, atoms[i][KeyFor(colorElement)]))))
    ensures r.Err? && r.error.MissingAtomKey? ==> (
      && colorElement in ColorElements
      && r.error.key == KeyFor(colorElement) && r.error.atom < |atoms|
      && r.error.key !in atoms[r.error.atom]
      && forall j :: 0 <= j < r.error.atom ==> r.error.key in atoms[j])
    ensures r.Err? && (r.error.NoGetMethod? || r.error.MissingAtomKey?) ==>
      visualizationType in VisualizationTypes && colorElement in ColorElements && scheme != NotAMapping(true)
    ensures r.Err? && r.error.NoGetMethod? ==> scheme == NotAMapping(false)
    ensures (r.Err? && visualizationType in VisualizationTypes && colorElement in ColorElements
             && scheme != NotAMapping(true)) ==>
      if ColorMap(colorElement, scheme, tables).None? then r.error == NoGetMethod else r.error.MissingAtomKey?
  {
    if visualizationType !in VisualizationTypes {
      return Err(InvalidVisualizationType);
    }
    if colorElement !in ColorElements {
      return Err(InvalidColorElement);
    }
    if scheme == NotAMapping(true) {
      return Err(InvalidColorScheme);
    }
    var colors := SchemeInUse(colorElement, scheme, tables);
    if colorElement == "residue_type" {
      var built := ResidueTypeColors(tables.aminoAcidClasses, colors);
      if built.Err? {
        return Err(built.error);
      }
      colors := Some(built.value);
    }
    assert colors.Some? ==> colors == ColorMap(colorElement, scheme, tables);
    assert scheme.Mapping? ==> colors.Some?;
    r := StyleAtoms(atoms, visualizationType, KeyFor(colorElement), colors);
  }
}
