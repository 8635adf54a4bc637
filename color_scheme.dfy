/** The GitHub Project field options of docs/color-scheme-config.js: three constant
    name-to-colour tables, the option builder `createColoredOptions` and the three field
    configurations built from it. */
module ColorScheme {
  import opened Common
  import Text

  /** An object literal's entries, in the order `Object.entries` returns them. */
  type Table = seq<(string, string)>

  const FactoryStatus: Table := [
    ("Initiation", "RED"),
    ("Todo", "ORANGE"),
    ("In Progress", "YELLOW"),
    ("Review", "GREEN"),
    ("Network Execution", "BLUE"),
    ("Analysis", "INDIGO"),
    ("Complete", "PURPLE"),
    ("Blocked", "GRAY")
  ]

  const StudyStage: Table := [
    ("Initiation", "RED"),
    ("Protocol development", "ORANGE"),
    ("Data diagnostics", "YELLOW"),
    ("Phenotype development", "GREEN"),
    ("Phenotype evaluation", "BLUE"),
    ("Analysis specifications", "INDIGO"),
    ("Network execution", "PURPLE"),
    ("Study diagnostics", "PINK"),
    ("Evidence synthesis", "GRAY"),
    ("Results evaluation", "DARK_GRAY")
  ]

  const PartnerStatus: Table := [
    ("Potential", "RED"),
    ("Invited", "ORANGE"),
    ("Committed", "YELLOW"),
    ("Diagnostics Sent", "GREEN"),
    ("Diagnostics Returned", "BLUE"),
    ("Package Executed", "INDIGO"),
    ("Results Uploaded", "PURPLE"),
    ("Complete", "PINK"),
    ("Withdrawn", "GRAY"),
    ("Blocked", "DARK_GRAY")
  ]

  /** The properties every plain object inherits from `Object.prototype`. Looking one of them
      up in `FACTORY_COLORS` gives a function or an object with no own enumerable entries. */
  const InheritedNames: seq<string> := [
    "constructor", "__proto__", "hasOwnProperty", "isPrototypeOf", "propertyIsEnumerable",
    "toLocaleString", "toString", "valueOf", "__defineGetter__", "__defineSetter__",
    "__lookupGetter__", "__lookupSetter__"
  ]

  /** `Object.entries(FACTORY_COLORS[statusType])`: None when the lookup gives `undefined`,
      which makes `Object.entries` throw a `TypeError`. */
  function ColorEntries(statusType: string): Option<Table> {
    if statusType == "FACTORY_STATUS" then Some(FactoryStatus)
    else if statusType == "STUDY_STAGE" then Some(StudyStage)
    else if statusType == "PARTNER_STATUS" then Some(PartnerStatus)
    else if statusType in InheritedNames then Some([])
    else None
  }

  datatype FieldOption = FieldOption(name: string, color: string, description: string)

  function Description(name: string, statusType: string): string {
    name + " status in " + Text.LowerAscii(statusType) + " workflow"
  }

  /** `createColoredOptions`: one option per colour entry, in order; None stands for the
      `TypeError` thrown for a type that is not in the table. */
  function CreateColoredOptions(statusType: string): (r: Option<seq<FieldOption>>)
    ensures r.Some? <==> ColorEntries(statusType).Some?
    ensures r.Some? ==> |r.value| == |ColorEntries(statusType).value|
  {
    var colors :- ColorEntries(statusType);
    Some(seq(|colors|, i requires 0 <= i < |colors| =>
      FieldOption(colors[i].0, colors[i].1, Description(colors[i].0, statusType))))
  }

  /** The name and colour of each option: the inverse direction of the builder. */
  function TableOf(options: seq<FieldOption>): (t: Table)
    ensures |t| == |options|
    decreases |options|
  {
    if |options| == 0 then [] else [(options[0].name, options[0].color)] + TableOf(options[1..])
  }

  /** Option `i` carries entry `i`'s name and colour and the derived description, so the
      entries can be read back from the options in table order. */
  lemma {:induction false} OptionsFollowTable(statusType: string)
    requires ColorEntries(statusType).Some?
    ensures var colors := ColorEntries(statusType).value;
            var options := CreateColoredOptions(statusType).value;
            && TableOf(options) == colors
            && forall i :: 0 <= i < |options| ==>
                 options[i].description == options[i].name + " status in " + Text.LowerAscii(statusType) + " workflow"
  {
    var colors := ColorEntries(statusType).value;
    var options := CreateColoredOptions(statusType).value;
    TableOfPairs(options);
  }

  lemma {:induction false} TableOfPairs(options: seq<FieldOption>)
    ensures forall i :: 0 <= i < |options| ==> TableOf(options)[i] == (options[i].name, options[i].color)
    decreases |options|
  {
    if |options| > 0 {
      TableOfPairs(options[1..]);
      forall i | 1 <= i < |options|
        ensures TableOf(options)[i] == (options[i].name, options[i].color)
      {
        assert TableOf(options)[i] == TableOf(options[1..])[i - 1];
      }
    }
  }

  /** The three tables have distinct keys, as object literals must, so option names are
      distinct within each field. */
  predicate DistinctNames(t: Table) {
    forall i, j :: 0 <= i < j < |t| ==> t[i].0 != t[j].0
  }

  lemma TablesHaveDistinctNames()
    ensures DistinctNames(FactoryStatus) && DistinctNames(StudyStage) && DistinctNames(PartnerStatus)
  {
    FactoryStatusDistinct();
    StudyStageDistinct();
    PartnerStatusDistinct();
  }

  lemma FactoryStatusDistinct()
    ensures DistinctNames(FactoryStatus)
  {
  }

  lemma StudyStageDistinct()
    ensures DistinctNames(StudyStage)
  {
  }

  lemma PartnerStatusDistinct()
    ensures DistinctNames(PartnerStatus)
  {
  }

  /** Lookups of a type outside the table: an inherited name yields no options, anything
      else throws. */
  lemma UnknownTypes()
    ensures CreateColoredOptions("toString") == Some([])
    ensures CreateColoredOptions("BOGUS") == None
    ensures CreateColoredOptions("factory_status") == None
  {
  }

  datatype FieldConfig = FieldConfig(name: string, dataType: string, options: seq<FieldOption>)

  /** `PROJECT_FIELD_CONFIGS`, keyed as in the source. */
  function ProjectFieldConfigs(): (configs: seq<(string, FieldConfig)>)
    ensures |configs| == 3
  {
    [ ("factoryStatus", FieldConfig("Status", "SINGLE_SELECT", CreateColoredOptions("FACTORY_STATUS").value)),
      ("studyStage", FieldConfig("Stage", "SINGLE_SELECT", CreateColoredOptions("STUDY_STAGE").value)),
      ("partnerStatus", FieldConfig("Site Status", "SINGLE_SELECT", CreateColoredOptions("PARTNER_STATUS").value)) ]
  }

  /** A single-select field named `name` whose options are built from `table`. */
  predicate SingleSelectFrom(config: FieldConfig, name: string, table: Table) {
    && config.name == name
    && config.dataType == "SINGLE_SELECT"
    && TableOf(config.options) == table
    && |config.options| == |table|
  }

  /** Every field is a single-select field whose options are built from its own table:
      8, 10 and 10 options. */
  lemma FieldConfigsShape()
    ensures |FactoryStatus| == 8 && |StudyStage| == 10 && |PartnerStatus| == 10
    ensures SingleSelectFrom(ProjectFieldConfigs()[0].1, "Status", FactoryStatus)
    ensures SingleSelectFrom(ProjectFieldConfigs()[1].1, "Stage", StudyStage)
    ensures SingleSelectFrom(ProjectFieldConfigs()[2].1, "Site Status", PartnerStatus)
  {
    StatusFieldShape();
    StageFieldShape();
    SiteStatusFieldShape();
  }

  lemma StatusFieldShape()
    ensures SingleSelectFrom(ProjectFieldConfigs()[0].1, "Status", FactoryStatus)
  {
    BuiltFrom("FACTORY_STATUS", FactoryStatus);
  }

  lemma StageFieldShape()
    ensures SingleSelectFrom(ProjectFieldConfigs()[1].1, "Stage", StudyStage)
  {
    BuiltFrom("STUDY_STAGE", StudyStage);
  }

  lemma SiteStatusFieldShape()
    ensures SingleSelectFrom(ProjectFieldConfigs()[2].1, "Site Status", PartnerStatus)
  {
    BuiltFrom("PARTNER_STATUS", PartnerStatus);
  }

  lemma BuiltFrom(statusType: string, table: Table)
    requires ColorEntries(statusType) == Some(table)
    ensures CreateColoredOptions(statusType).Some?
    ensures TableOf(CreateColoredOptions(statusType).value) == table
    ensures |CreateColoredOptions(statusType).value| == |table|
  {
    OptionsFollowTable(statusType);
  }
}
