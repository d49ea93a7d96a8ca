/**
 * One category of the configuration file: its typed fields, the parsing of one
 * `field=value` line into them, and the check that every required field was given.
 * The pure functions over `CategoryState` say what the `Category` methods do.
 */
module ConfigCategory {
  import opened Wrappers
  import opened ConfigText

  datatype FieldType =
    | SizeField | SizeVecField | StringField | StringVecField | DoubleField | DoubleVecField

  /** The order in which validate visits the six lists of fields. */
  const FieldTypeOrder: seq<FieldType> :=
    [SizeField, SizeVecField, StringField, StringVecField, DoubleField, DoubleVecField]

  /**
   * A registered field. `data` is the raw text of its value once a line has set it;
   * the conversion of that text to a number or a list is not part of this model.
   */
  datatype Field = Field(name: string, required: bool, data: Option<string>) {
    predicate IsSet() {
      data.Some?
    }

    /** `Field::parse`: the field takes the value and counts as set. */
    function Parse(value: string): Field {
      this.(data := Some(value))
    }
  }

  /** The six per-type lists of fields of a category. */
  datatype FieldLists = FieldLists(
    sizes: seq<Field>, sizeVecs: seq<Field>, strings: seq<Field>,
    stringVecs: seq<Field>, doubles: seq<Field>, doubleVecs: seq<Field>)
  {
    function Get(t: FieldType): seq<Field> {
      match t
      case SizeField => sizes
      case SizeVecField => sizeVecs
      case StringField => strings
      case StringVecField => stringVecs
      case DoubleField => doubles
      case DoubleVecField => doubleVecs
    }

    function With(t: FieldType, fs: seq<Field>): FieldLists {
      match t
      case SizeField => this.(sizes := fs)
      case SizeVecField => this.(sizeVecs := fs)
      case StringField => this.(strings := fs)
      case StringVecField => this.(stringVecs := fs)
      case DoubleField => this.(doubles := fs)
      case DoubleVecField => this.(doubleVecs := fs)
    }
  }

  const NoFields := FieldLists([], [], [], [], [], [])

  /** The whole state of a category: its name, the name-to-type registry and the field lists. */
  datatype CategoryState = CategoryState(name: string, types: map<string, FieldType>, lists: FieldLists)

  datatype ParseError =
    | EmptyField(field: string, category: string)
    | UnregisteredField(field: string, category: string)

  /**
   * `findNameInFields`: the position of the first field whose lower-cased name is `key`,
   * or `|fs|` when there is none.
   */
  function FindField(fs: seq<Field>, key: string): (r: nat)
    ensures r <= |fs|
    ensures forall i :: 0 <= i < r ==> Lower(fs[i].name) != key
    ensures r < |fs| ==> Lower(fs[r].name) == key
  {
    if fs == [] then 0
    else if Lower(fs[0].name) == key then 0
    else 1 + FindField(fs[1..], key)
  }

  /**
   * `register*Field(name, required)`: the name, lower-cased as field lines are, maps to the
   * type, and an unset field is appended to the list of that type.
   */
  function Registered(st: CategoryState, name: string, t: FieldType, required: bool): CategoryState {
    st.(types := st.types[Lower(name) := t],
        lists := st.lists.With(t, st.lists.Get(t) + [Field(name, required, None)]))
  }

  /** Registering the names one after another, each with its own `required` flag. */
  function RegisteredAll(st: CategoryState, names: seq<string>, t: FieldType, required: seq<bool>): (r: CategoryState)
    requires |required| == |names|
    ensures r.name == st.name
  {
    if names == [] then st
    else
      var n := |names| - 1;
      Registered(RegisteredAll(st, names[..n], t, required[..n]), names[n], t, required[n])
  }

  /**
   * `Category::parseLine`: split at the first '=', reject a value of white space only,
   * reject a name that is not registered, and otherwise set the first field of that name
   * in the list of its registered type (nothing changes when the list has no such field).
   */
  function ParsedLine(st: CategoryState, line: string): Result<CategoryState, ParseError> {
    var (field, value) := SplitAtEquals(line);
    if FirstNonBlank(value) == |value| then Failure(EmptyField(field, st.name))
    else if field !in st.types then Failure(UnregisteredField(field, st.name))
    else
      var t := st.types[field];
      var fs := st.lists.Get(t);
      var k := FindField(fs, field);
      if k == |fs| then Success(st)
      else Success(st.(lists := st.lists.With(t, fs[k := fs[k].Parse(value)])))
  }

  /** parseLine fails exactly on an empty value or an unregistered name, in that order. */
  lemma ParsedLineFails(st: CategoryState, line: string)
    ensures var (field, value) := SplitAtEquals(line);
            && (ParsedLine(st, line).Failure? <==> AllBlank(value) || field !in st.types)
            && (AllBlank(value) ==> ParsedLine(st, line) == Failure(EmptyField(field, st.name)))
  {
  }

  /**
   * A successful parseLine changes exactly one field: the first one of the parsed name in
   * the list of its registered type, which takes the value. The name, the registry, every
   * other list and every other field of that list stay as they were.
   */
  lemma ParsedLineFrame(st: CategoryState, line: string)
    requires ParsedLine(st, line).Success?
    ensures var st' := ParsedLine(st, line).value;
            var (field, value) := SplitAtEquals(line);
            var t := st.types[field];
            var fs := st.lists.Get(t);
            var k := FindField(fs, field);
            && st'.name == st.name && st'.types == st.types
            && (forall u :: u != t ==> st'.lists.Get(u) == st.lists.Get(u))
            && |st'.lists.Get(t)| == |fs|
            && (forall i :: 0 <= i < |fs| && i != k ==> st'.lists.Get(t)[i] == fs[i])
            && (k < |fs| ==> st'.lists.Get(t)[k] == Field(fs[k].name, fs[k].required, Some(value)))
  {
  }

  /** The names of the required fields of `fs` that are not set, in list order. */
  function MissingOf(fs: seq<Field>): seq<string> {
    if fs == [] then []
    else
      var f := fs[|fs| - 1];
      MissingOf(fs[..|fs| - 1]) + (if !f.IsSet() && f.required then [f.name] else [])
  }

  /** One of validate's loops: the names of the required fields of one list that are not set, in order. */
  method ReportMissing(fs: seq<Field>) returns (missing: seq<string>)
    ensures missing == MissingOf(fs)
  {
    missing := [];
    for i := 0 to |fs|
      invariant missing == MissingOf(fs[..i])
    {
      assert fs[..i + 1][..i] == fs[..i];
      if !fs[i].IsSet() && fs[i].required {
        missing := missing + [fs[i].name];
      }
    }
    assert fs[..|fs|] == fs;
  }

  /** The same over the lists of the given types, one type after another. */
  function MissingOver(lists: FieldLists, ts: seq<FieldType>): seq<string> {
    if ts == [] then []
    else MissingOver(lists, ts[..|ts| - 1]) + MissingOf(lists.Get(ts[|ts| - 1]))
  }

  /** Every message validate prints, in order: one per required field that is not set. */
  function MissingRequired(st: CategoryState): seq<string> {
    MissingOver(st.lists, FieldTypeOrder)
  }

  /** Some field of some type is required and not set. */
  ghost predicate HasMissingRequired(st: CategoryState) {
    exists t: FieldType, i :: 0 <= i < |st.lists.Get(t)|
      && st.lists.Get(t)[i].required && !st.lists.Get(t)[i].IsSet()
  }

  lemma {:induction false} MissingOfNames(fs: seq<Field>, name: string)
    ensures name in MissingOf(fs) <==>
            exists i :: 0 <= i < |fs| && fs[i].required && !fs[i].IsSet() && fs[i].name == name
  {
    if fs != [] {
      var n := |fs| - 1;
      MissingOfNames(fs[..n], name);
      assert forall i :: 0 <= i < n ==> fs[..n][i] == fs[i];
    }
  }

  lemma {:induction false} MissingOverNames(lists: FieldLists, ts: seq<FieldType>, name: string)
    ensures name in MissingOver(lists, ts) <==>
            exists t, i :: t in ts && 0 <= i < |lists.Get(t)| && lists.Get(t)[i].required
                           && !lists.Get(t)[i].IsSet() && lists.Get(t)[i].name == name
  {
    if ts != [] {
      var n := |ts| - 1;
      MissingOverNames(lists, ts[..n], name);
      MissingOfNames(lists.Get(ts[n]), name);
      assert ts == ts[..n] + [ts[n]];
    }
  }

  /**
   * validate reports a name exactly when some field of that name is required and not set,
   * and it reports something exactly when such a field exists.
   */
  lemma MissingRequiredSound(st: CategoryState)
    ensures forall name :: name in MissingRequired(st) <==>
              exists t, i :: 0 <= i < |st.lists.Get(t)| && st.lists.Get(t)[i].required
                             && !st.lists.Get(t)[i].IsSet() && st.lists.Get(t)[i].name == name
    ensures MissingRequired(st) != [] <==> HasMissingRequired(st)
  {
    forall name
      ensures name in MissingRequired(st) <==>
              exists t, i :: 0 <= i < |st.lists.Get(t)| && st.lists.Get(t)[i].required
                             && !st.lists.Get(t)[i].IsSet() && st.lists.Get(t)[i].name == name
    {
      MissingOverNames(st.lists, FieldTypeOrder, name);
    }
    if HasMissingRequired(st) {
      var t: FieldType, i :| 0 <= i < |st.lists.Get(t)|
        && st.lists.Get(t)[i].required && !st.lists.Get(t)[i].IsSet();
      assert st.lists.Get(t)[i].name in MissingRequired(st);
    }
    if MissingRequired(st) != [] {
      assert MissingRequired(st)[0] in MissingRequired(st);
    }
  }

  /** A category of the reader, updated in place by the registration calls and by parseLine. */
  class Category {
    const name: string
    var fieldTypes: map<string, FieldType>
    var sizeFields: seq<Field>
    var sizeVecFields: seq<Field>
    var stringFields: seq<Field>
    var stringVecFields: seq<Field>
    var doubleFields: seq<Field>
    var doubleVecFields: seq<Field>

    function State(): CategoryState
      reads this
    {
      CategoryState(name, fieldTypes, FieldLists(sizeFields, sizeVecFields, stringFields,
                                                 stringVecFields, doubleFields, doubleVecFields))
    }

    constructor (name: string)
      ensures State() == CategoryState(name, map[], NoFields)
    {
      this.name := name;
      fieldTypes := map[];
      sizeFields, sizeVecFields, stringFields := [], [], [];
      stringVecFields, doubleFields, doubleVecFields := [], [], [];
    }

    /** The list that the source's `switch` on the field type selects. */
    method FieldsOf(t: FieldType) returns (fs: seq<Field>)
      ensures fs == State().lists.Get(t)
    {
      match t
      case SizeField => fs := sizeFields;
      case SizeVecField => fs := sizeVecFields;
      case StringField => fs := stringFields;
      case StringVecField => fs := stringVecFields;
      case DoubleField => fs := doubleFields;
      case DoubleVecField => fs := doubleVecFields;
    }

    method SetFields(t: FieldType, fs: seq<Field>)
      modifies this
      ensures State() == old(State()).(lists := old(State()).lists.With(t, fs))
    {
      match t
      case SizeField => sizeFields := fs;
      case SizeVecField => sizeVecFields := fs;
      case StringField => stringFields := fs;
      case StringVecField => stringVecFields := fs;
      case DoubleField => doubleFields := fs;
      case DoubleVecField => doubleVecFields := fs;
    }

    method RegisterField(fieldName: string, t: FieldType, required: bool)
      modifies this
      ensures State() == Registered(old(State()), fieldName, t, required)
    {
      fieldTypes := fieldTypes[Lower(fieldName) := t];
      var fs := FieldsOf(t);
      SetFields(t, fs + [Field(fieldName, required, None)]);
    }

    /** The registration loops of the FileParser constructor. */
    method RegisterFields(names: seq<string>, t: FieldType, required: seq<bool>)
      requires |required| == |names|
      modifies this
      ensures State() == RegisteredAll(old(State()), names, t, required)
    {
      for i := 0 to |names|
        invariant State() == RegisteredAll(old(State()), names[..i], t, required[..i])
      {
        assert names[..i + 1][..i] == names[..i] && required[..i + 1][..i] == required[..i];
        RegisterField(names[i], t, required[i]);
      }
      assert names[..|names|] == names && required[..|names|] == required;
    }

    /** `Category::parseLine`; a failure leaves the category as it was. */
    method ParseLine(line: string) returns (r: Outcome<ParseError>)
      modifies this
      ensures ParsedLine(old(State()), line) == if r.Pass? then Success(State()) else Failure(r.error)
      ensures r.Fail? ==> State() == old(State())
    {
      var (field, value) := SplitAtEquals(line);
      if FirstNonBlank(value) == |value| {
        return Fail(EmptyField(field, name));
      }
      if field !in fieldTypes {
        return Fail(UnregisteredField(field, name));
      }
      var t := fieldTypes[field];
      var fs := FieldsOf(t);
      var k := FindField(fs, field);
      if k < |fs| {
        SetFields(t, fs[k := fs[k].Parse(value)]);
      }
      return Pass;
    }

    /**
     * `Category::validate`: visits every field of every list without stopping early,
     * reports each required field that is not set, and fails when it reported any.
     */
    method Validate() returns (reported: seq<string>, errorFound: bool)
      ensures reported == MissingRequired(State())
      ensures errorFound <==> HasMissingRequired(State())
    {
      reported, errorFound := [], false;
      for j := 0 to |FieldTypeOrder|
        invariant reported == MissingOver(State().lists, FieldTypeOrder[..j])
        invariant errorFound <==> reported != []
      {
        var fs := FieldsOf(FieldTypeOrder[j]);
        var missing := ReportMissing(fs);
        reported := reported + missing;
        errorFound := errorFound || missing != [];
        assert FieldTypeOrder[..j + 1][..j] == FieldTypeOrder[..j];
      }
      assert FieldTypeOrder[..|FieldTypeOrder|] == FieldTypeOrder;
      MissingRequiredSound(State());
    }
  }
}
