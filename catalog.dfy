/** The schema of every section class of app/fall3d/dataclasses.py: its class
    attributes in declaration order (the order `OrderedMeta` records), with
    each field's variable, label, block, class and default exactly as
    declared, and the names under which `get_sections` publishes the
    sections. A default is the Python literal as written: `default = 0` is an
    `int` even on a `FieldFloat`, and `default = "0.5"` is a string. */
module Catalog {
  import opened Wrappers
  import opened PyText
  import opened OrderedDicts
  import opened Fields
  import opened Grouping
  import opened Overrides

  // ---------------------------------------------------------------------
  // building blocks of a class body

  /** The attribute name `fN`. */
  function FieldName(n: nat): string
  {
    "f" + NatStr(n)
  }

  /** Attributes that are not fields: dunder names, `description`, methods. */
  function Others(names: seq<string>): (r: seq<(string, Attr)>)
    ensures |r| == |names| && forall i :: 0 <= i < |names| ==> r[i] == (names[i], OtherAttr)
  {
    seq(|names|, i requires 0 <= i < |names| => (names[i], OtherAttr))
  }

  /** The fields `f<start>`, `f<start+1>`, ... declared one after the other. */
  function Numbered(start: nat, fs: seq<Field>): (r: FieldMap)
    ensures |r| == |fs| && forall i :: 0 <= i < |fs| ==> r[i] == (FieldName(start + i), fs[i])
  {
    seq(|fs|, i requires 0 <= i < |fs| => (FieldName(start + i), fs[i]))
  }

  /** The same fields as class attributes. */
  function AsAttrs(fs: FieldMap): (r: seq<(string, Attr)>)
    ensures |r| == |fs| && forall i :: 0 <= i < |fs| ==> r[i] == (fs[i].0, FieldAttr(fs[i].1))
  {
    seq(|fs|, i requires 0 <= i < |fs| => (fs[i].0, FieldAttr(fs[i].1)))
  }

  function Str_(variable: string, default: string): Field
  {
    NewField(StringField, variable, None, None, Str(default))
  }

  function Float_(variable: string, default: Value): Field
  {
    NewField(FloatField, variable, None, None, default)
  }

  function Integer_(variable: string, default: int): Field
  {
    NewField(IntegerField, variable, None, None, Int(default))
  }

  function Boolean_(variable: string, default: bool): Field
  {
    NewField(BooleanField, variable, None, None, Bool(default))
  }

  function Choice_(variable: string, default: string, options: seq<string>): Field
  {
    NewField(ChoiceField(Some(options)), variable, None, None, Str(default))
  }

  function InBlock(f: Field, block: string): Field
  {
    f.(block := Some(block))
  }

  function WithLabel(f: Field, text: string): Field
  {
    f.(labelText := Some(text))
  }

  // ---------------------------------------------------------------------
  // the section classes

  /** The names of the class body that are not fields, before the fields. */
  function HeadNames(kind: SectionKind): seq<string>
  {
    if kind == BaseSection then ["__module__", "__qualname__"]
    else ["__module__", "__qualname__", "description"]
  }

  /** The names of the class body that are not fields, after the fields:
      the methods the class defines. */
  function TailNames(kind: SectionKind): seq<string>
  {
    match kind
    case BaseSection => ["_fmt_var", "__str__", "update_from_obj"]
    case MeteoSection => []
    case SpeciesSection => []
    case TgsdSection => []
    case _ => ["_fmt_var"]
  }

  /** The fields `f1`, `f2`, ... of each class. */
  function MainFields(kind: SectionKind): seq<Field>
  {
    match kind
    case BaseSection => []
    case TimeSection => TimeFields(kind)
    case MeteoSection => MeteoFields(kind)
    case GridSection => GridFields(kind)
    case SpeciesSection => SpeciesFields(kind)
    case TgsdSection => TgsdFields(kind)
    case AggregationSection => AggregationFields(kind)
    case SourceSection => SourceFields(kind)
    case PhysicsSection => PhysicsFields(kind)
    case OutputSection => OutputFields(kind)
  }

  /** The number of the first gravity-current field: `SectionPhysics`
      skips one number after its last numbered field. */
  function GravityCurrentStart(kind: SectionKind): nat
  {
    1 + |MainFields(kind)| + (if kind == PhysicsSection then 1 else 0)
  }

  function GravityCurrentFields(kind: SectionKind): seq<Field>
  {
    if kind == PhysicsSection then GravityCurrentTable() else []
  }

  /** The gravity-current fields that `SectionPhysics` declares after `f13`. */
  function GravityCurrentTable(): seq<Field>
  {
    var b := "IF_GRAVITY_CURRENT";
    [ InBlock(Float_("C_FLOW_RATE", Int(870)), b)
    , InBlock(Float_("LAMBDA_GRAV", Float("0.2")), b)
    , InBlock(Float_("K_ENTRAIN", Float("0.1")), b)
    , InBlock(Float_("BRUNT_VAISALA", Float("0.02")), b)
    , InBlock(Float_("GC_START_(HOURS_AFTER_00)", Int(0)), b)
    , InBlock(Float_("GC_END_(HOURS_AFTER_00)", Int(3)), b) ]
  }

  /** The fields of the class, with their attribute names, in declaration order. */
  function SchemaFields(kind: SectionKind): FieldMap
  {
    Numbered(1, MainFields(kind)) + Numbered(GravityCurrentStart(kind), GravityCurrentFields(kind))
  }

  /** The class body, as `OrderedMeta` records it. */
  function Schema(kind: SectionKind): seq<(string, Attr)>
  {
    Others(HeadNames(kind)) + AsAttrs(SchemaFields(kind)) + Others(TailNames(kind))
  }

  /** The numbered fields of `SectionTime`, the class `kind`. */
  function TimeFields(kind: SectionKind): seq<Field>
    requires kind == TimeSection
  {
    [ NewField(DateField, "DATE", None, None, Date(2008, 4, 29))
    , Float_("RUN_START_(HOURS_AFTER_00)", Int(0))
    , Float_("RUN_END_(HOURS_AFTER_00)", Int(24))
    , Choice_("INITIAL_CONDITION", "NONE", ["NONE", "INSERTION", "RESTART"])
    , Str_("RESTART_FILE", "Example-8.0.rst.nc")
    , Str_("RESTART_ENSEMBLE_BASEPATH", "./") ]
  }

  /** The numbered fields of `SectionMeteo`, the class `kind`. */
  function MeteoFields(kind: SectionKind): seq<Field>
    requires kind == MeteoSection
  {
    [ Choice_("METEO_DATA_FORMAT", "WRF", ["WRF", "GFS", "ERA5", "ERA5ML", "IFS", "CARRA"])
    , Str_("METEO_DATA_DICTIONARY_FILE", "WRF.tbl")
    , Str_("METEO_DATA_FILE", "Example-8.0.wrf.nc")
    , Str_("METEO_ENSEMBLE_BASEPATH", "")
    , Str_("METEO_LEVELS_FILE", "../Other/Meteo/Tables/L137_ECMWF.levels")
    , Float_("DBS_BEGIN_METEO_DATA_(HOURS_AFTER_00)", Int(0))
    , Float_("DBS_END_METEO_DATA_(HOURS_AFTER_00)", Int(24))
    , Float_("METEO_COUPLING_INTERVAL_(MIN)", Int(60))
    , Integer_("MEMORY_CHUNK_SIZE", 5) ]
  }

  /** The numbered fields of `SectionGrid`, the class `kind`. */
  function GridFields(kind: SectionKind): seq<Field>
    requires kind == GridSection
  {
    [ Choice_("HORIZONTAL_MAPPING", "SPHERICAL", ["CARTESIAN", "SPHERICAL"])
    , Choice_("VERTICAL_MAPPING", "SIGMA_LINEAR_DECAY", ["SIGMA_NO_DECAY", "SIGMA_LINEAR_DECAY", "SIGMA_EXPONENTIAL_DECAY"])
    , Float_("LONMIN", Float("14.0"))
    , Float_("LONMAX", Float("16.0"))
    , Float_("LATMIN", Float("36.5"))
    , Float_("LATMAX", Float("38.5"))
    , Integer_("NX", 50)
    , WithLabel(Boolean_("NX", false), "RESOLUTION")
    , Float_("NX", Float("0.1"))
    , Integer_("NY", 50)
    , WithLabel(Boolean_("NY", false), "RESOLUTION")
    , Float_("NY", Float("0.1"))
    , Integer_("NZ", 10)
    , Float_("ZMAX_(M)", Int(10000))
    , Str_("SIGMA_VALUES", "") ]
  }

  /** The numbered fields of `SectionSpecies`, the class `kind`. */
  function SpeciesFields(kind: SectionKind): seq<Field>
    requires kind == SpeciesSection
  {
    var mass := "MASS_FRACTION_(%)";
    [ Boolean_("TEPHRA", true)
    , Boolean_("DUST", false)
    , Boolean_("H2O", false)
    , WithLabel(Float_("H2O", Int(2)), mass)
    , Boolean_("SO2", true)
    , WithLabel(Float_("SO2", Int(1)), mass)
    , Boolean_("CS134", false)
    , WithLabel(Float_("CS134", Int(0)), mass)
    , Boolean_("CS137", false)
    , WithLabel(Float_("CS137", Int(0)), mass)
    , Boolean_("I131", false)
    , WithLabel(Float_("I131", Int(0)), mass)
    , Boolean_("SR90", false)
    , WithLabel(Float_("SR90", Int(0)), mass)
    , Boolean_("Y90", false)
    , WithLabel(Float_("Y90", Int(0)), mass) ]
  }

  /** The numbered fields of `SectionTGSD`, the class `kind`. */
  function TgsdFields(kind: SectionKind): seq<Field>
    requires kind == TgsdSection
  {
    [ Integer_("NUMBER_OF_BINS", 6)
    , Str_("FI_RANGE", "-2 8")
    , Str_("DENSITY_RANGE", "1200 2300")
    , Str_("SPHERICITY_RANGE", "0.9 0.9")
    , Choice_("DISTRIBUTION", "GAUSSIAN", ["GAUSSIAN", "BIGAUSSIAN", "WEIBULL", "BIWEIBULL", "CUSTOM", "ESTIMATE"])
    , InBlock(Float_("FI_MEAN", Float("2.5")), "IF_GAUSSIAN")
    , InBlock(Float_("FI_DISP", Float("1.5")), "IF_GAUSSIAN")
    , InBlock(Str_("FI_MEAN", "0.25 0.75"), "IF_BIGAUSSIAN")
    , InBlock(Str_("FI_DISP", "1.44 1.46"), "IF_BIGAUSSIAN")
    , InBlock(Float_("MIXING_FACTOR", Float("0.5")), "IF_BIGAUSSIAN") ]
  }

  /** The numbered fields of `SectionAggregation`, the class `kind`. */
  function AggregationFields(kind: SectionKind): seq<Field>
    requires kind == AggregationSection
  {
    [ Choice_("PARTICLE_CUT_OFF", "NONE", ["NONE", "FI_LOWER_THAN", "FI_LARGER_THAN", "D_(MIC)_LARGER_THAN", "D_(MIC)_LOWER_THAN"])
    , Float_("PARTICLE_CUT_OFF", Float("1.0"))
    , Choice_("AGGREGATION_MODEL", "PERCENTAGE", ["NONE", "CORNELL", "COSTA", "PERCENTAGE"])
    , Integer_("NUMBER_OF_AGGREGATE_BINS", 2)
    , Str_("DIAMETER_AGGREGATES_(MIC)", "300. 200.")
    , Str_("DENSITY_AGGREGATES_(KGM3)", "350. 250.")
    , Str_("PERCENTAGE_(%)", "20. 10.")
    , Float_("VSET_FACTOR", Str("0.5"))
    , Float_("FRACTAL_EXPONENT", Str("2.99")) ]
  }

  /** The numbered fields of `SectionSource`, the class `kind`. */
  function SourceFields(kind: SectionKind): seq<Field>
    requires kind == SourceSection
  {
    [ Choice_("SOURCE_TYPE", "TOP-HAT", ["POINT", "SUZUKI", "TOP-HAT", "PLUME"])
    , Str_("SOURCE_START_(HOURS_AFTER_00)", "0  12")
    , Str_("SOURCE_END_(HOURS_AFTER_00)", "10 24")
    , Float_("LON_VENT", Float("15.0"))
    , Float_("LAT_VENT", Float("37.75"))
    , Float_("VENT_HEIGHT_(M)", Float("3000.0"))
    , Float_("HEIGHT_ABOVE_VENT_(M)", Float("6000.0"))
    , Choice_("MASS_FLOW_RATE_(KGS)", "ESTIMATE-MASTIN", ["value", "ESTIMATE-MASTIN", "ESTIMATE-WOODHOUSE", "ESTIMATE-DEGRUYTER"])
    , Float_("MASS_FLOW_RATE_(KGS)", Float("10000000.0"))
    , Float_("ALFA_PLUME", Float("0.1"))
    , Float_("BETA_PLUME", Float("0.5"))
    , Float_("EXIT_TEMPERATURE_(K)", Float("1200.0"))
    , Float_("EXIT_WATER_FRACTION_(%)", Float("0.0"))
    , InBlock(Str_("A", "4. 5."), "IF_SUZUKI_SOURCE")
    , InBlock(Str_("L", "5."), "IF_SUZUKI_SOURCE")
    , InBlock(Float_("THICKNESS_(M)", Float("2000.0")), "IF_TOP-HAT_SOURCE") ]
  }

  /** The numbered fields of `SectionPhysics`, the class `kind`. */
  function PhysicsFields(kind: SectionKind): seq<Field>
    requires kind == PhysicsSection
  {
    [ Choice_("LIMITER", "SUPERBEE", ["MINMOD", "SUPERBEE", "OSPRE"])
    , Choice_("TIME_MARCHING", "RUNGE-KUTTA", ["EULER", "RUNGE-KUTTA"])
    , Choice_("CFL_CRITERION", "ALL_DIMENSIONS", ["ONE_DIMENSIONAL", "ALL_DIMENSIONS"])
    , Float_("CFL_SAFETY_FACTOR", Float("0.9"))
    , Choice_("TERMINAL_VELOCITY_MODEL", "GANSER", ["ARASTOOPOUR", "GANSER", "WILSON", "DELLINO", "PFEIFFER", "DIOGUARDI2017", "DIOGUARDI2018"])
    , Choice_("HORIZONTAL_TURBULENCE_MODEL", "CMAQ", ["CONSTANT", "CMAQ", "RAMS"])
    , Float_("HORIZONTAL_TURBULENCE_MODEL", Int(1000))
    , Choice_("VERTICAL_TURBULENCE_MODEL", "SIMILARITY", ["CONSTANT", "SIMILARITY"])
    , Float_("VERTICAL_TURBULENCE_MODEL", Int(150))
    , Float_("RAMS_CS", Float("0.2275"))
    , Boolean_("WET_DEPOSITION", false)
    , Boolean_("DRY_DEPOSITION", false)
    , Boolean_("GRAVITY_CURRENT", false) ]
  }

  /** The numbered fields of `SectionOutput`, the class `kind`. */
  function OutputFields(kind: SectionKind): seq<Field>
    requires kind == OutputSection
  {
    [ Boolean_("PARALLEL_IO", false)
    , Choice_("LOG_FILE_LEVEL", "FULL", ["NONE", "NORMAL", "FULL"])
    , Choice_("RESTART_TIME_INTERVAL_(HOURS)", "END_ONLY", ["value", "NONE", "END_ONLY"])
    , Float_("RESTART_TIME_INTERVAL_(HOURS)", Int(12))
    , Boolean_("OUTPUT_JSON_FILES", false)
    , Boolean_("OUTPUT_INTERMEDIATE_FILES", false)
    , Choice_("OUTPUT_TIME_START_(HOURS)", "RUN_START", ["value", "RUN_START"])
    , Float_("OUTPUT_TIME_START_(HOURS)", Int(0))
    , Float_("OUTPUT_TIME_INTERVAL_(HOURS)", Int(1))
    , Boolean_("OUTPUT_3D_CONCENTRATION", false)
    , Boolean_("OUTPUT_3D_CONCENTRATION_BINS", false)
    , Boolean_("OUTPUT_SURFACE_CONCENTRATION", false)
    , Boolean_("OUTPUT_COLUMN_LOAD", true)
    , Boolean_("OUTPUT_CLOUD_TOP", true)
    , Boolean_("OUTPUT_GROUND_LOAD", true)
    , Boolean_("OUTPUT_GROUND_LOAD_BINS", false)
    , Boolean_("OUTPUT_WET_DEPOSITION", false)
    , Boolean_("TRACK_POINTS", false)
    , Str_("TRACK_POINTS_FILE", "my_file.pts")
    , Boolean_("OUTPUT_CONCENTRATION_AT_XCUTS", false)
    , Str_("X-VALUES", "15")
    , Boolean_("OUTPUT_CONCENTRATION_AT_YCUTS", false)
    , Str_("Y-VALUES", "37.5")
    , Boolean_("OUTPUT_CONCENTRATION_AT_ZCUTS", false)
    , Str_("Z-VALUES", "5000")
    , Boolean_("OUTPUT_CONCENTRATION_AT_FL", true)
    , Str_("FL-VALUES", "50 100 150 200 250 300 350 400") ]
  }

  // ---------------------------------------------------------------------
  // `get_sections`

  /** The names `get_sections` gives the sections, in its order. */
  const CatalogNames: seq<string> :=
    [ "TIME_UTC", "METEO_DATA", "GRID", "SPECIES", "TEPHRA_TGSD"
    , "PARTICLE_AGGREGATION", "SOURCE", "MODEL_PHYSICS", "MODEL_OUTPUT" ]

  /** The section class published under each name. */
  const CatalogKinds: seq<SectionKind> :=
    [ TimeSection, MeteoSection, GridSection, SpeciesSection, TgsdSection
    , AggregationSection, SourceSection, PhysicsSection, OutputSection ]

  // ---------------------------------------------------------------------
  // what the schemas promise

  lemma FieldNameInjective(a: nat, b: nat)
    ensures FieldName(a) == FieldName(b) ==> a == b
  {
    if FieldName(a) == FieldName(b) {
      assert FieldName(a)[1..] == NatStr(a);
      assert FieldName(b)[1..] == NatStr(b);
      NatStrRoundTrip(a);
      NatStrRoundTrip(b);
    }
  }

  /** The names of a run of numbered fields are distinct and each starts with `f`. */
  lemma NumberedNames(start: nat, fs: seq<Field>)
    ensures Distinct(Keys(Numbered(start, fs)))
    ensures forall i :: 0 <= i < |fs| ==> Keys(Numbered(start, fs))[i][0] == 'f'
  {
    var ks := Keys(Numbered(start, fs));
    forall i, j | 0 <= i < j < |ks| ensures ks[i] != ks[j] {
      FieldNameInjective(start + i, start + j);
    }
  }

  /** Two runs of numbered fields that do not overlap have distinct names. */
  lemma RunsDistinct(main: seq<Field>, start: nat, extra: seq<Field>)
    requires extra == [] || 1 + |main| <= start
    ensures var fs := Numbered(1, main) + Numbered(start, extra);
      && Distinct(Keys(fs))
      && forall i :: 0 <= i < |fs| ==> fs[i].0 != [] && fs[i].0[0] == 'f'
  {
    var a, b := Numbered(1, main), Numbered(start, extra);
    NumberedNames(1, main);
    NumberedNames(start, extra);
    var fs := a + b;
    var ks := Keys(fs);
    forall i, j | 0 <= i < j < |ks| ensures ks[i] != ks[j] {
      if j < |a| {
        assert ks[i] == Keys(a)[i] && ks[j] == Keys(a)[j];
      } else if i >= |a| {
        assert ks[i] == Keys(b)[i - |a|] && ks[j] == Keys(b)[j - |a|];
      } else {
        FieldNameInjective(1 + i, start + (j - |a|));
      }
    }
    forall i | 0 <= i < |fs| ensures fs[i].0 != [] && fs[i].0[0] == 'f' {
      if i < |a| {
        assert fs[i] == a[i];
      } else {
        assert fs[i] == b[i - |a|];
      }
    }
  }

  /** Only the fields of a class body are taken as fields. */
  lemma {:induction false} ClassFieldsAppend(a: seq<(string, Attr)>, b: seq<(string, Attr)>)
    ensures ClassFields(a + b) == ClassFields(a) + ClassFields(b)
  {
    if b != [] {
      var init := b[..|b| - 1];
      assert (a + b)[..|a + b| - 1] == a + init;
      assert (a + b)[|a + b| - 1] == b[|b| - 1];
      ClassFieldsAppend(a, init);
    } else {
      assert a + b == a;
    }
  }

  lemma {:induction false} ClassFieldsOthers(names: seq<string>)
    ensures ClassFields(Others(names)) == []
  {
    if names != [] {
      assert Others(names)[..|names| - 1] == Others(names[..|names| - 1]);
      ClassFieldsOthers(names[..|names| - 1]);
    }
  }

  lemma {:induction false} ClassFieldsAttrs(fs: FieldMap)
    requires forall i :: 0 <= i < |fs| ==> fs[i].0 != [] && fs[i].0[0] == 'f'
    ensures ClassFields(AsAttrs(fs)) == fs
  {
    if fs != [] {
      var init := fs[..|fs| - 1];
      assert AsAttrs(fs)[..|fs| - 1] == AsAttrs(init);
      ClassFieldsAttrs(init);
      assert fs == init + [fs[|fs| - 1]];
    }
  }

  /** The fields of a class body of non-field names around field names
      starting with `f` are exactly its field attributes. */
  lemma BodyClassFields(head: seq<string>, fs: FieldMap, tail: seq<string>)
    requires forall i :: 0 <= i < |fs| ==> fs[i].0 != [] && fs[i].0[0] == 'f'
    ensures ClassFields(Others(head) + AsAttrs(fs) + Others(tail)) == fs
  {
    ClassFieldsAppend(Others(head) + AsAttrs(fs), Others(tail));
    ClassFieldsAppend(Others(head), AsAttrs(fs));
    ClassFieldsOthers(head);
    ClassFieldsOthers(tail);
    ClassFieldsAttrs(fs);
    assert [] + fs + [] == fs;
  }

  /** Distinct names in three parts, where no name of a part occurs in another. */
  lemma DistinctThree(x: seq<string>, y: seq<string>, z: seq<string>)
    requires Distinct(x) && Distinct(y) && Distinct(z)
    requires forall i, j :: 0 <= i < |x| && 0 <= j < |y| ==> x[i] != y[j]
    requires forall i, j :: 0 <= i < |x| && 0 <= j < |z| ==> x[i] != z[j]
    requires forall i, j :: 0 <= i < |y| && 0 <= j < |z| ==> y[i] != z[j]
    ensures Distinct(x + y + z)
  {
    var ks := x + y + z;
    var h, n := |x|, |x| + |y|;
    forall i, j | 0 <= i < j < |ks| ensures ks[i] != ks[j] {
      if j < h {
        assert ks[i] == x[i] && ks[j] == x[j];
      } else if i >= n {
        assert ks[i] == z[i - n] && ks[j] == z[j - n];
      } else if i >= h && j < n {
        assert ks[i] == y[i - h] && ks[j] == y[j - h];
      } else if i < h && j < n {
        assert ks[i] == x[i] && ks[j] == y[j - h];
      } else if i < h {
        assert ks[i] == x[i] && ks[j] == z[j - n];
      } else {
        assert ks[i] == y[i - h] && ks[j] == z[j - n];
      }
    }
  }

  /** A class body binds each name once when its non-field names are
      distinct and do not start with `f`, and its field names are distinct
      and do. */
  lemma BodyDistinct(head: seq<string>, fs: FieldMap, tail: seq<string>)
    requires forall i :: 0 <= i < |fs| ==> fs[i].0 != [] && fs[i].0[0] == 'f'
    requires Distinct(head) && Distinct(tail) && Distinct(Keys(fs))
    requires forall i :: 0 <= i < |head| ==> head[i] != [] && head[i][0] != 'f'
    requires forall i :: 0 <= i < |tail| ==> tail[i] != [] && tail[i][0] != 'f'
    requires forall i, j :: 0 <= i < |head| && 0 <= j < |tail| ==> head[i] != tail[j]
    ensures Distinct(Keys(Others(head) + AsAttrs(fs) + Others(tail)))
  {
    var x, y, z := Keys(Others(head)), Keys(AsAttrs(fs)), Keys(Others(tail));
    assert Keys(Others(head) + AsAttrs(fs) + Others(tail)) == x + y + z;
    assert x == head && z == tail;
    assert y == Keys(fs);
    DistinctThree(x, y, z);
  }

  /** The field names of a class are distinct, and each starts with `f`. */
  lemma SchemaFieldNames(kind: SectionKind)
    ensures var fs := SchemaFields(kind);
      && Distinct(Keys(fs))
      && forall i :: 0 <= i < |fs| ==> fs[i].0 != [] && fs[i].0[0] == 'f'
  {
    var main, start, extra := MainFields(kind), GravityCurrentStart(kind), GravityCurrentFields(kind);
    assert SchemaFields(kind) == Numbered(1, main) + Numbered(start, extra);
    RunsDistinct(main, start, extra);
  }

  /** The fields a section takes from its class are exactly the `fN`
      attributes, in declaration order, under distinct names. */
  lemma SchemaFieldsTaken(kind: SectionKind)
    ensures ClassFields(Schema(kind)) == SchemaFields(kind)
    ensures Distinct(Keys(SchemaFields(kind)))
  {
    SchemaFieldNames(kind);
    BodyClassFields(HeadNames(kind), SchemaFields(kind), TailNames(kind));
  }

  /** A class body binds each name once. */
  lemma SchemaDistinct(kind: SectionKind)
    ensures Distinct(Keys(Schema(kind)))
  {
    SchemaFieldNames(kind);
    NonFieldNames(kind);
    BodyDistinct(HeadNames(kind), SchemaFields(kind), TailNames(kind));
  }

  /** A run of fields numbered from `f1`, then a run numbered from one
      past the next number: the number skipped names no field. */
  lemma {:induction false} SkippedNumber(main: seq<Field>, start: nat, extra: seq<Field>)
    requires start == |main| + 2
    ensures var ks := Keys(Numbered(1, main) + Numbered(start, extra));
      && |ks| == |main| + |extra|
      && (forall i :: 0 <= i < |main| ==> ks[i] == FieldName(i + 1))
      && (forall i :: |main| <= i < |ks| ==> ks[i] == FieldName(i + 2))
      && FieldName(|main| + 1) !in ks
  {
    var fs := Numbered(1, main) + Numbered(start, extra);
    forall i | 0 <= i < |fs| ensures fs[i].0 != FieldName(|main| + 1) {
      var n := if i < |main| then i + 1 else i + 2;
      assert fs[i].0 == FieldName(n);
      FieldNameInjective(n, |main| + 1);
    }
  }

  /** `SectionPhysics` names its fields `f1` to `f13`, then `f15` to
      `f20` for the gravity current: `f14` is not one of its fields. */
  lemma PhysicsFieldNames()
    ensures var ks := Keys(SchemaFields(PhysicsSection));
      && |ks| == 19
      && (forall i :: 0 <= i < 13 ==> ks[i] == FieldName(i + 1))
      && (forall i :: 13 <= i < 19 ==> ks[i] == FieldName(i + 2))
      && FieldName(14) !in ks
  {
    var main, extra := MainFields(PhysicsSection), GravityCurrentFields(PhysicsSection);
    assert |main| == 13 && |extra| == 6;
    assert SchemaFields(PhysicsSection) == Numbered(1, main) + Numbered(15, extra);
    SkippedNumber(main, 15, extra);
  }

  /** The non-field names of a class body are distinct, and none starts with `f`. */
  lemma NonFieldNames(kind: SectionKind)
    ensures var head, tail := HeadNames(kind), TailNames(kind);
      && Distinct(head) && Distinct(tail)
      && (forall i :: 0 <= i < |head| ==> head[i] != [] && head[i][0] != 'f')
      && (forall i :: 0 <= i < |tail| ==> tail[i] != [] && tail[i][0] != 'f')
      && (forall i, j :: 0 <= i < |head| && 0 <= j < |tail| ==> head[i] != tail[j])
  {
    var head, tail := HeadNames(kind), TailNames(kind);
    assert forall i :: 0 <= i < |head| ==> head[i][0] == '_' || head[i][0] == 'd';
    assert forall i :: 0 <= i < |tail| ==> tail[i][0] == '_' || tail[i][0] == 'u';
    if kind == BaseSection {
      assert tail[0][1] == 'f' && tail[1][1] == '_';
      assert head[0][2] == 'm' && head[1][2] == 'q';
    }
  }
}
