/**
 * The configuration reader: the registry of categories built by the FileParser
 * constructor, and readFile, which walks the lines of the file keeping a
 * "current category", hands `field=value` lines to it, and validates every
 * category at the end. `Read` states what readFile does as a function of the
 * registry and the lines; `FileParser.ReadFile` is proved to do exactly that.
 */
module FileParsing {
  import opened Wrappers
  import opened ConfigText
  import opened ConfigCategory

  datatype ReadError =
    | CannotOpen
    | FieldBeforeCategory(lineNumber: nat, text: string)
    | UnknownCategory(lineNumber: nat, header: string)
    | BadField(error: ParseError)
    | MissingRequiredFields(category: string, fields: seq<string>)

  /** How readFile treats one line once comments and surrounding white space are gone. */
  datatype LineKind = Skipped | Header(text: string) | Assignment(text: string)

  function Classify(line: string): LineKind {
    match Normalize(line)
    case None => Skipped
    case Some(t) => if '=' in t then Assignment(t) else Header(t)
  }

  /**
   * `stringToCategoryMap.find(key)`: the position of the category named `key`.
   * Category names are distinct, so the first match is the only one.
   */
  function FindCategory(states: seq<CategoryState>, key: string): (r: Option<nat>)
    ensures r.Some? ==> r.value < |states| && states[r.value].name == key
    ensures r.None? ==> forall i :: 0 <= i < |states| ==> states[i].name != key
  {
    if states == [] then None
    else if states[0].name == key then Some(0)
    else match FindCategory(states[1..], key)
      case None => None
      case Some(k) => Some(k + 1)
  }

  /**
   * The reader between two lines: the categories and the current one. `current` is
   * None until the first header; the source leaves its pointer uninitialised then.
   */
  datatype Reader = Reader(states: seq<CategoryState>, current: Option<nat>) {
    predicate Ok() {
      current.Some? ==> current.value < |states|
    }
  }

  /** One iteration of readFile's loop over the lines. */
  function Step(r: Reader, line: string, lineNumber: nat): Result<Reader, ReadError>
    requires r.Ok()
  {
    match Classify(line)
    case Skipped => Success(r)
    case Assignment(t) =>
      if r.current.None? then Failure(FieldBeforeCategory(lineNumber, line))
      else
        var k := r.current.value;
        (match ParsedLine(r.states[k], Lower(t))
         case Failure(e) => Failure(BadField(e))
         case Success(st) => Success(r.(states := r.states[k := st])))
    case Header(t) =>
      (match FindCategory(r.states, Upper(t))
       case None => Failure(UnknownCategory(lineNumber, Upper(t)))
       case Some(k) => Success(r.(current := Some(k))))
  }

  /** readFile's loop over the lines, numbered from `first`; it stops at the first error. */
  function ReadLines(r: Reader, lines: seq<string>, first: nat): Result<Reader, ReadError>
    requires r.Ok()
    decreases |lines|
  {
    if lines == [] then Success(r)
    else match Step(r, lines[0], first)
      case Failure(e) => Failure(e)
      case Success(r') =>
        StepKeepsNames(r, lines[0], first);
        ReadLines(r', lines[1..], first + 1)
  }

  /** readFile's final loop: categories in key order, stopping at the first that fails validate. */
  function ValidateAll(states: seq<CategoryState>): Outcome<ReadError> {
    if states == [] then Pass
    else if MissingRequired(states[0]) != [] then
      Fail(MissingRequiredFields(states[0].name, MissingRequired(states[0])))
    else ValidateAll(states[1..])
  }

  /** `FileParser::readFile` on a file whose lines are `contents`, or that cannot be opened. */
  function Read(states: seq<CategoryState>, contents: Option<seq<string>>): Result<seq<CategoryState>, ReadError> {
    match contents
    case None => Failure(CannotOpen)
    case Some(lines) =>
      (match ReadLines(Reader(states, None), lines, 1)
       case Failure(e) => Failure(e)
       case Success(r) =>
         (match ValidateAll(r.states)
          case Fail(e) => Failure(e)
          case Pass => Success(r.states)))
  }

  /** A step never changes the number of categories or their names, and keeps the reader Ok. */
  lemma StepKeepsNames(r: Reader, line: string, n: nat)
    requires r.Ok() && Step(r, line, n).Success?
    ensures var r' := Step(r, line, n).value;
            r'.Ok() && |r'.states| == |r.states|
            && forall i :: 0 <= i < |r.states| ==> r'.states[i].name == r.states[i].name
  {
    match Classify(line)
    case Skipped =>
    case Header(t) =>
    case Assignment(t) =>
      var k := r.current.value;
      var st := ParsedLine(r.states[k], Lower(t)).value;
      assert st.name == r.states[k].name;
  }

  /**
   * A line that is empty, white space only, or white space before a '#' leaves the
   * reader exactly as it was.
   */
  lemma BlankLineSkipped(r: Reader, line: string, n: nat)
    requires r.Ok() && AllBlank(StripComment(line))
    ensures Step(r, line, n) == Success(r)
  {
    NormalizeSkipsBlank(line);
  }

  /**
   * A header is upper-cased and must name a registered category, which becomes the
   * current one; as the registered names are upper case, it matches them regardless
   * of letter case.
   */
  lemma HeaderSelectsCategory(r: Reader, line: string, n: nat)
    requires r.Ok() && Classify(line).Header?
    requires forall i :: 0 <= i < |r.states| ==> r.states[i].name == Upper(r.states[i].name)
    ensures var t := Classify(line).text;
            && (Step(r, line, n).Success? <==> exists i :: 0 <= i < |r.states| && EqualIgnoringCase(r.states[i].name, t))
            && (Step(r, line, n).Success? ==>
                  var k := Step(r, line, n).value.current.value;
                  && Step(r, line, n).value.states == r.states
                  && r.states[k].name == Upper(t))
  {
    var t := Classify(line).text;
    forall i | 0 <= i < |r.states|
      ensures EqualIgnoringCase(r.states[i].name, t) <==> r.states[i].name == Upper(t)
    {
      UpperMatchesIgnoringCase(r.states[i].name, t);
      UpperIsIdempotent(t);
      if EqualIgnoringCase(r.states[i].name, t) {
        UpperNamesAreFixed(r.states[i].name, t);
      }
    }
  }

  lemma UpperIsIdempotent(s: string)
    ensures Upper(Upper(s)) == Upper(s)
  {
    assert forall i :: 0 <= i < |s| ==> Upper(Upper(s))[i] == Upper(s)[i];
  }

  /**
   * Matching is against upper-cased text, so a registered name equal to some text up to
   * case is found only when it is itself upper case.
   */
  lemma UpperNamesAreFixed(name: string, t: string)
    requires EqualIgnoringCase(name, t)
    ensures name == Upper(t) <==> name == Upper(name)
  {
    UpperMatchesIgnoringCase(name, t);
    UpperIsIdempotent(t);
    UpperIsIdempotent(name);
  }

  /** A `field=value` line before any header is an error. */
  lemma FieldNeedsCategory(r: Reader, line: string, n: nat)
    requires r.Ok() && Classify(line).Assignment? && r.current.None?
    ensures Step(r, line, n) == Failure(FieldBeforeCategory(n, line))
  {
  }

  /**
   * Under a current category, a `field=value` line is lower-cased as a whole and parsed
   * by that category alone; every other category and the current choice stay as they were.
   */
  lemma FieldGoesToCurrent(r: Reader, line: string, n: nat)
    requires r.Ok() && Classify(line).Assignment? && r.current.Some?
    ensures var k := r.current.value;
            var parsed := ParsedLine(r.states[k], Lower(Classify(line).text));
            && (Step(r, line, n).Success? <==> parsed.Success?)
            && (parsed.Success? ==>
                  var r' := Step(r, line, n).value;
                  && r'.current == r.current
                  && |r'.states| == |r.states|
                  && r'.states[k] == parsed.value
                  && forall j :: 0 <= j < |r.states| && j != k ==> r'.states[j] == r.states[j])
  {
  }

  /** The position of the first category that misses a required field, `|states|` when none does. */
  ghost function FirstMissing(states: seq<CategoryState>): (k: nat)
    ensures k <= |states|
    ensures forall j :: 0 <= j < k ==> !HasMissingRequired(states[j])
    ensures k < |states| ==> HasMissingRequired(states[k])
  {
    if states == [] then 0
    else if HasMissingRequired(states[0]) then 0
    else 1 + FirstMissing(states[1..])
  }

  /**
   * The validation loop fails exactly when some category misses a required field, and it
   * reports the first such category with every field it misses.
   */
  lemma {:induction false} ValidateAllFails(states: seq<CategoryState>)
    ensures ValidateAll(states)
            == if FirstMissing(states) < |states|
               then Fail(MissingRequiredFields(states[FirstMissing(states)].name,
                                               MissingRequired(states[FirstMissing(states)])))
               else Pass
  {
    if states != [] {
      MissingRequiredSound(states[0]);
      ValidateAllFails(states[1..]);
    }
  }


  /**
   * The categories the FileParser constructor registers, in the order readFile visits them.
   * `stringToCategoryMap` is assumed to be a `std::map` keyed by the category name (its
   * declaration is not part of this model), so that order is the lexicographic key order.
   */
  function DefaultRegistry(): seq<CategoryState> {
    [BackboneParameters(), BaseParameters(), RuntimeParameters()]
  }

  function RuntimeParameters(): CategoryState {
    var s0 := CategoryState("RUNTIME PARAMETERS", map[], NoFields);
    var s1 := RegisteredAll(s0, ["Rise", "X_Disp", "Y_Disp", "Inclination", "Tip", "Twist"],
                            DoubleVecField, [true, true, true, true, true, true]);
    var s2 := RegisteredAll(s1, ["Max_Total_Energy", "Max_Angle_Energy", "Max_Bond_Energy",
                                 "Max_VDW_Energy", "Max_Torsion_Energy", "Max_Distance"],
                            DoubleField, [true, true, true, true, true, true]);
    var s3 := RegisteredAll(s2, ["Force_Field_Type", "Force_Field_Parameter_File"],
                            StringField, [false, false]);
    var s4 := Registered(s3, "Base_to_Backbone_Bond_Length", DoubleField, false);
    var s5 := Registered(s4, "Algorithm", StringField, true);
    RegisteredAll(s5, ["Search_Size", "Dihedral_Step_Size", "Search_Step_Size", "Chain_Length"],
                  SizeField, [true, false, false, false])
  }

  function BackboneParameters(): CategoryState {
    var s0 := CategoryState("BACKBONE PARAMETERS", map[], NoFields);
    var s1 := RegisteredAll(s0, ["Interconnects", "Base_Connect"], SizeVecField, [true, true]);
    Registered(s1, "Backbone_File_Path", StringField, true)
  }

  function BaseParameters(): CategoryState {
    var s0 := CategoryState("BASE PARAMETERS", map[], NoFields);
    var s1 := RegisteredAll(s0, ["Code", "Name", "Base_File_Path"], StringVecField, [true, true, true]);
    Registered(s1, "Backbone_Connect", SizeVecField, true)
  }

  /** The list of one type after registering names of that type; other lists are untouched. */
  lemma {:induction false} RegisteredAllLists(st: CategoryState, names: seq<string>, t: FieldType, required: seq<bool>)
    requires |required| == |names|
    ensures var st' := RegisteredAll(st, names, t, required);
            && st'.name == st.name
            && st'.lists.Get(t) == st.lists.Get(t) + seq(|names|, i requires 0 <= i < |names| => Field(names[i], required[i], None))
            && forall u :: u != t ==> st'.lists.Get(u) == st.lists.Get(u)
  {
    if names != [] {
      var n := |names| - 1;
      RegisteredAllLists(st, names[..n], t, required[..n]);
    }
  }

  /**
   * The size fields of RUNTIME PARAMETERS: Search_Size is required, the other three are
   * optional; of the text fields only Algorithm is required; Base_to_Backbone_Bond_Length
   * is the seventh, optional, number field.
   */
  lemma RuntimeFlags()
    ensures var sizes := RuntimeParameters().lists.Get(SizeField);
            sizes == [Field("Search_Size", true, None), Field("Dihedral_Step_Size", false, None),
                      Field("Search_Step_Size", false, None), Field("Chain_Length", false, None)]
    ensures var strings := RuntimeParameters().lists.Get(StringField);
            strings == [Field("Force_Field_Type", false, None), Field("Force_Field_Parameter_File", false, None),
                        Field("Algorithm", true, None)]
    ensures var doubles := RuntimeParameters().lists.Get(DoubleField);
            |doubles| == 7 && doubles[6] == Field("Base_to_Backbone_Bond_Length", false, None)
  {
    var s0 := CategoryState("RUNTIME PARAMETERS", map[], NoFields);
    var n1 := ["Rise", "X_Disp", "Y_Disp", "Inclination", "Tip", "Twist"];
    var s1 := RegisteredAll(s0, n1, DoubleVecField, [true, true, true, true, true, true]);
    var n2 := ["Max_Total_Energy", "Max_Angle_Energy", "Max_Bond_Energy",
               "Max_VDW_Energy", "Max_Torsion_Energy", "Max_Distance"];
    var s2 := RegisteredAll(s1, n2, DoubleField, [true, true, true, true, true, true]);
    var n3 := ["Force_Field_Type", "Force_Field_Parameter_File"];
    var s3 := RegisteredAll(s2, n3, StringField, [false, false]);
    var s4 := Registered(s3, "Base_to_Backbone_Bond_Length", DoubleField, false);
    var s5 := Registered(s4, "Algorithm", StringField, true);
    var n6 := ["Search_Size", "Dihedral_Step_Size", "Search_Step_Size", "Chain_Length"];
    var s6 := RegisteredAll(s5, n6, SizeField, [true, false, false, false]);
    assert s6 == RuntimeParameters();
    RegisteredAllLists(s0, n1, DoubleVecField, [true, true, true, true, true, true]);
    RegisteredAllLists(s1, n2, DoubleField, [true, true, true, true, true, true]);
    RegisteredAllLists(s2, n3, StringField, [false, false]);
    RegisteredAllLists(s5, n6, SizeField, [true, false, false, false]);
    assert |s2.lists.Get(DoubleField)| == 6;
    assert |s3.lists.Get(StringField)| == 2;
    assert s3.lists.Get(StringField)[0] == Field("Force_Field_Type", false, None);
    assert s3.lists.Get(StringField)[1] == Field("Force_Field_Parameter_File", false, None);
    assert s5.lists.Get(SizeField) == s2.lists.Get(SizeField) == s1.lists.Get(SizeField) == [];
    assert s6.lists.Get(SizeField)[0] == Field("Search_Size", true, None);
    assert s6.lists.Get(SizeField)[1] == Field("Dihedral_Step_Size", false, None);
    assert s6.lists.Get(SizeField)[2] == Field("Search_Step_Size", false, None);
    assert s6.lists.Get(SizeField)[3] == Field("Chain_Length", false, None);
  }

  /** `std::string`'s `operator<`: lexicographic order on characters. */
  predicate LexLess(a: string, b: string) {
    if b == [] then false
    else if a == [] then true
    else if a[0] != b[0] then a[0] < b[0]
    else LexLess(a[1..], b[1..])
  }

  /** Two strings that agree before position k and differ there are ordered by that character. */
  lemma {:induction false} LexLessAt(a: string, b: string, k: nat)
    requires k < |a| && k < |b| && a[k] < b[k]
    requires forall i :: 0 <= i < k ==> a[i] == b[i]
    ensures LexLess(a, b)
  {
    if k > 0 {
      LexLessAt(a[1..], b[1..], k - 1);
    }
  }

  /** The registry lists the categories in the assumed iteration order of the category map. */
  lemma RegistryIs(backbone: CategoryState, base0: CategoryState, runtime: CategoryState)
    requires backbone == BackboneParameters() && base0 == BaseParameters() && runtime == RuntimeParameters()
    ensures [backbone, base0, runtime] == DefaultRegistry()
  {
  }

  /** The names the constructor registers, in the assumed key order of the category map. */
  const CategoryKeys: seq<string> := ["BACKBONE PARAMETERS", "BASE PARAMETERS", "RUNTIME PARAMETERS"]

  lemma RegistryNames()
    ensures |DefaultRegistry()| == |CategoryKeys|
    ensures forall i :: 0 <= i < |CategoryKeys| ==> DefaultRegistry()[i].name == CategoryKeys[i]
  {
  }

  lemma KeysDistinct()
    ensures forall i, j :: 0 <= i < j < |CategoryKeys| ==> CategoryKeys[i] != CategoryKeys[j]
  {
    assert CategoryKeys[0][2] != CategoryKeys[1][2];
    assert CategoryKeys[0][0] != CategoryKeys[2][0];
    assert CategoryKeys[1][0] != CategoryKeys[2][0];
  }

  /** Upper-casing leaves a text without lower-case ASCII letters as it is. */
  lemma UpperKeepsNonLower(s: string)
    requires forall i :: 0 <= i < |s| ==> !('a' <= s[i] <= 'z')
    ensures Upper(s) == s
  {
    assert forall i :: 0 <= i < |s| ==> Upper(s)[i] == s[i];
  }

  /** The category keys are upper case. */
  lemma KeysUpper()
    ensures forall i :: 0 <= i < |CategoryKeys| ==> Upper(CategoryKeys[i]) == CategoryKeys[i]
  {
    UpperKeepsNonLower(CategoryKeys[0]);
    UpperKeepsNonLower(CategoryKeys[1]);
    UpperKeepsNonLower(CategoryKeys[2]);
  }

  /** The category names the constructor registers are upper case. */
  lemma RegistryNamesUpper()
    ensures forall i :: 0 <= i < |DefaultRegistry()| ==> DefaultRegistry()[i].name == Upper(DefaultRegistry()[i].name)
  {
    RegistryNames();
    KeysUpper();
  }

  /** The reader's categories carry the registered names, in the key order of the map. */
  predicate NamedAsRegistry(states: seq<CategoryState>) {
    |states| == |CategoryKeys| && forall i :: 0 <= i < |states| ==> states[i].name == CategoryKeys[i]
  }

  /** The reader starts from the registry, and no line renames a category. */
  lemma RegistryNamesKept(r: Reader, line: string, n: nat)
    requires r.Ok() && NamedAsRegistry(r.states) && Step(r, line, n).Success?
    ensures NamedAsRegistry(DefaultRegistry())
    ensures NamedAsRegistry(Step(r, line, n).value.states)
  {
    RegistryNames();
    StepKeepsNames(r, line, n);
  }

  /**
   * Against the registered categories, a header succeeds exactly when it is one of
   * BACKBONE PARAMETERS, BASE PARAMETERS and RUNTIME PARAMETERS up to letter case, and
   * the category of that name becomes the current one.
   */
  lemma HeaderMatchesRegistry(r: Reader, line: string, n: nat)
    requires r.Ok() && Classify(line).Header? && NamedAsRegistry(r.states)
    ensures var t := Classify(line).text;
            && (Step(r, line, n).Success? <==> exists i :: 0 <= i < |CategoryKeys| && EqualIgnoringCase(CategoryKeys[i], t))
            && (Step(r, line, n).Success? ==>
                  var k := Step(r, line, n).value.current.value;
                  k < |CategoryKeys| && EqualIgnoringCase(CategoryKeys[k], t))
  {
    var t := Classify(line).text;
    KeysUpper();
    HeaderSelectsCategory(r, line, n);
    if Step(r, line, n).Success? {
      var k := Step(r, line, n).value.current.value;
      UpperMatchesIgnoringCase(CategoryKeys[k], t);
      UpperIsIdempotent(t);
    }
  }

  /**
   * The registry's order is lexicographic in the names, the order in which a `std::map`
   * keyed by name, as `stringToCategoryMap` is assumed to be, iterates its categories.
   */
  lemma RegistryInKeyOrder()
    ensures forall i, j :: 0 <= i < j < |CategoryKeys| ==> LexLess(CategoryKeys[i], CategoryKeys[j])
  {
    var backbone, base, runtime := CategoryKeys[0], CategoryKeys[1], CategoryKeys[2];
    assert backbone[0] == base[0] && backbone[1] == base[1] && backbone[2] < base[2];
    LexLessAt(backbone, base, 2);
    LexLessAt(base, runtime, 0);
    LexLessAt(backbone, runtime, 0);
  }



  class FileParser {
    /** `stringToCategoryMap`, in the order of its keys. */
    const categories: seq<Category>

    ghost predicate Valid() {
      forall i, j :: 0 <= i < j < |categories| ==> categories[i].name != categories[j].name
    }

    function States(): seq<CategoryState>
      reads this, categories
    {
      seq(|categories|, i reads categories requires 0 <= i < |categories| => categories[i].State())
    }

    /** `FileParser::FileParser`: registers the three categories and their fields. */
    constructor ()
      ensures Valid() && States() == DefaultRegistry()
    {
      var runtime := NewRuntimeParameters();
      var backbone := NewBackboneParameters();
      var base0 := NewBaseParameters();
      categories := [backbone, base0, runtime];
      new;
      assert States() == [backbone.State(), base0.State(), runtime.State()];
      RegistryIs(backbone.State(), base0.State(), runtime.State());
      KeysDistinct();
      assert forall i :: 0 <= i < 3 ==> categories[i].name == CategoryKeys[i];
    }

    static method NewRuntimeParameters() returns (c: Category)
      ensures fresh(c) && c.name == "RUNTIME PARAMETERS" && c.State() == RuntimeParameters()
    {
      c := new Category("RUNTIME PARAMETERS");
      c.RegisterFields(["Rise", "X_Disp", "Y_Disp", "Inclination", "Tip", "Twist"],
                       DoubleVecField, [true, true, true, true, true, true]);
      c.RegisterFields(["Max_Total_Energy", "Max_Angle_Energy", "Max_Bond_Energy",
                        "Max_VDW_Energy", "Max_Torsion_Energy", "Max_Distance"],
                       DoubleField, [true, true, true, true, true, true]);
      c.RegisterFields(["Force_Field_Type", "Force_Field_Parameter_File"], StringField, [false, false]);
      c.RegisterField("Base_to_Backbone_Bond_Length", DoubleField, false);
      c.RegisterField("Algorithm", StringField, true);
      c.RegisterFields(["Search_Size", "Dihedral_Step_Size", "Search_Step_Size", "Chain_Length"],
                       SizeField, [true, false, false, false]);
    }

    static method NewBackboneParameters() returns (c: Category)
      ensures fresh(c) && c.name == "BACKBONE PARAMETERS" && c.State() == BackboneParameters()
    {
      c := new Category("BACKBONE PARAMETERS");
      c.RegisterFields(["Interconnects", "Base_Connect"], SizeVecField, [true, true]);
      c.RegisterField("Backbone_File_Path", StringField, true);
    }

    static method NewBaseParameters() returns (c: Category)
      ensures fresh(c) && c.name == "BASE PARAMETERS" && c.State() == BaseParameters()
    {
      c := new Category("BASE PARAMETERS");
      c.RegisterFields(["Code", "Name", "Base_File_Path"], StringVecField, [true, true, true]);
      c.RegisterField("Backbone_Connect", SizeVecField, true);
    }

    /**
     * `FileParser::readFile`. `contents` is None when the file cannot be opened. The
     * outcome and the categories afterwards are those `Read` gives.
     */
    method ReadFile(contents: Option<seq<string>>) returns (r: Outcome<ReadError>)
      requires Valid()
      modifies categories
      ensures Valid()
      ensures var spec := Read(old(States()), contents);
              && (r.Pass? <==> spec.Success?)
              && (r.Fail? ==> r.error == spec.error)
              && (r.Pass? ==> States() == spec.value)
    {
      if contents.None? {
        return Fail(CannotOpen);
      }
      r := ParseLines(contents.value);
      if r.Fail? {
        return;
      }
      r := ValidateCategories();
    }

    /** readFile's loop over the lines of an opened file, stopping at the first failure. */
    method ParseLines(lines: seq<string>) returns (r: Outcome<ReadError>)
      requires Valid()
      modifies categories
      ensures Valid()
      ensures var spec := ReadLines(Reader(old(States()), None), lines, 1);
              && (r.Pass? <==> spec.Success?)
              && (r.Fail? ==> r.error == spec.error)
              && (r.Pass? ==> States() == spec.value.states)
    {
      ghost var start := States();
      var current: Option<nat> := None;
      for i := 0 to |lines|
        invariant Valid()
        invariant Reader(States(), current).Ok()
        invariant |States()| == |start|
        invariant ReadLines(Reader(start, None), lines, 1) == ReadLines(Reader(States(), current), lines[i..], i + 1)
      {
        var step := ReadLine(lines[i], i + 1, current);
        if step.Failure? {
          return Fail(step.error);
        }
        current := step.value;
        assert lines[i..][1..] == lines[i + 1..];
      }
      return Pass;
    }

    /** The body of readFile's loop for one line: skip it, hand it to the current category, or switch category. */
    method ReadLine(line: string, lineNumber: nat, current: Option<nat>) returns (r: Result<Option<nat>, ReadError>)
      requires Valid() && Reader(States(), current).Ok()
      modifies categories
      ensures Valid()
      ensures var spec := Step(Reader(old(States()), current), line, lineNumber);
              && (r.Success? <==> spec.Success?)
              && (r.Failure? ==> r.error == spec.error)
              && (r.Success? ==> spec.value == Reader(States(), r.value))
    {
      ghost var before := Reader(States(), current);
      match Classify(line) {
        case Skipped =>
          r := Success(current);
        case Assignment(text) =>
          if current.None? {
            return Failure(FieldBeforeCategory(lineNumber, line));
          }
          var k := current.value;
          var e := categories[k].ParseLine(Lower(text));
          if e.Fail? {
            return Failure(BadField(e.error));
          }
          assert States() == before.states[k := categories[k].State()];
          r := Success(current);
        case Header(text) =>
          var key := Upper(text);
          var k := FindCategory(States(), key);
          if k.None? {
            return Failure(UnknownCategory(lineNumber, key));
          }
          r := Success(k);
      }
    }

    /** readFile's final loop: validate each category in key order, stopping at the first failure. */
    method ValidateCategories() returns (r: Outcome<ReadError>)
      requires Valid()
      ensures r == ValidateAll(States())
    {
      ghost var final := States();
      for j := 0 to |categories|
        invariant ValidateAll(final) == ValidateAll(final[j..])
      {
        var reported, errorFound := categories[j].Validate();
        MissingRequiredSound(final[j]);
        if errorFound {
          return Fail(MissingRequiredFields(categories[j].name, reported));
        }
        assert final[j..][1..] == final[j + 1..];
      }
      return Pass;
    }
  }
}
