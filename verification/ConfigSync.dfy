/**
 * The guard around a configuration change that may touch the account-facts variables only: a digest of the
 * service before it, compared with one after it. Digests are taken as injective, so a digest is the normalised
 * value itself.
 */
module ConfigSync {
  import opened Wrappers
  import opened Ordering
  import opened Text
  import opened Digits
  import opened Splitting

  datatype Json =
    | Null
    | Flag(value: bool)
    | Num(amount: real, literal: string)
    | Str(text: string)
    | List(items: seq<Json>)
    | Obj(fields: Fields)

  type Fields = map<string, Json>

  datatype SyncError =
    | ShapeInvalid | EnvironmentAmbiguous | TargetMismatch | AliasInvalid | TrafficInvalid
    | ReferenceMismatch | AliasShared | ConfigurationMismatch | ConfigurationChanged | TrafficChanged

  function Get(fields: Fields, key: string): Json {
    if key in fields then fields[key] else Null
  }

  /** The field of something that may be no mapping at all. */
  function Field(j: Json, key: string): Json {
    if j.Obj? then Get(j.fields, key) else Null
  }

  predicate Falsy(j: Json) {
    j.Null? || j == Flag(false) || (j.Num? && j.amount == 0.0) || j == Str("") || j == List([]) || j == Obj(map[])
  }

  const SYNC_TOKEN := "FIRSTRADE_ACCOUNT_FACTS_SYNC_TOKEN"
  const FACTS_FIELDS := [
    "FIRSTRADE_ACCOUNT_FACTS_SYNC_ENABLED", "FIRSTRADE_ACCOUNT_FACTS_SYNC_URL", "FIRSTRADE_ACCOUNT_FACTS_TARGET_ID",
    "FIRSTRADE_ACCOUNT_FACTS_SOURCE_BINDING_ID", "FIRSTRADE_ACCOUNT_FACTS_ACCOUNT_KEY",
    "FIRSTRADE_ACCOUNT_FACTS_ACCOUNT_SCOPE"]
  const SECRETS := "run.googleapis.com/secrets"
  const CLIENT_NAME := "run.googleapis.com/client-name"
  const CLIENT_VERSION := "run.googleapis.com/client-version"
  const NONCE := "client.knative.dev/nonce"

  predicate IsFacts(name: string) {
    name == SYNC_TOKEN || name in FACTS_FIELDS
  }

  // ----- the parts of a service -----

  datatype TrafficRow = TrafficRow(latest: bool, revision: Option<string>, percent: Option<Option<string>>, tag: Option<string>)

  /**
   * `spec` is what the service says it should be, without its traffic rows, which stand beside it as read.
   * `created` is the name of the latest created revision.
   */
  datatype Service = Service(spec: Fields, specTraffic: seq<TrafficRow>, statusTraffic: seq<TrafficRow>, created: string)

  function Template(spec: Fields): Json {
    Get(spec, "template")
  }

  function Containers(spec: Fields): Json {
    Field(Field(Template(spec), "spec"), "containers")
  }

  predicate OneContainer(spec: Fields) {
    Containers(spec).List? && |Containers(spec).items| == 1 && Containers(spec).items[0].Obj?
  }

  function Container(spec: Fields): Fields
    requires OneContainer(spec)
  {
    Containers(spec).items[0].fields
  }

  /** `container.get("env") or []` */
  function EnvRows(spec: Fields): Json
    requires OneContainer(spec)
  {
    var env := Get(Container(spec), "env");
    if Falsy(env) then List([]) else env
  }

  // ----- the environment by name -----

  predicate Named(row: Json) {
    row.Obj? && Get(row.fields, "name").Str? && Get(row.fields, "name").text != ""
  }

  function NameOf(row: Json): string {
    var name := Field(row, "name");
    if name.Str? then name.text else ""
  }

  function EnvironmentOf(rows: seq<Json>): Result<Fields, SyncError> {
    if rows == [] then Ok(map[])
    else
      var before :- EnvironmentOf(rows[..|rows| - 1]);
      var last := rows[|rows| - 1];
      if !Named(last) || NameOf(last) in before then Err(EnvironmentAmbiguous)
      else Ok(before[NameOf(last) := last])
  }

  /** The environment by name; `fits` stands for the checks of the runtime target in it. */
  function ServiceEnvironment(s: Service, fits: Fields -> bool): Result<Fields, SyncError> {
    if !OneContainer(s.spec) || !EnvRows(s.spec).List? then Err(ShapeInvalid)
    else
      var environment :- EnvironmentOf(EnvRows(s.spec).items);
      if fits(environment) then Ok(environment) else Err(TargetMismatch)
  }

  // ----- secret aliases -----

  predicate WordChar(c: char) {
    'a' <= c <= 'z' || 'A' <= c <= 'Z' || '0' <= c <= '9' || c == '_' || c == '-'
  }

  predicate Word(s: string) {
    1 <= |s| <= 255 && forall i | 0 <= i < |s| :: WordChar(s[i])
  }

  const PROJECTS := "projects/"
  const IN_SECRETS := "/secrets/"

  predicate ResourceWith(s: string, n: nat) {
    && |PROJECTS| + n + |IN_SECRETS| <= |s|
    && s[..|PROJECTS|] == PROJECTS
    && AllDigits(s[|PROJECTS|..|PROJECTS| + n])
    && s[|PROJECTS| + n..|PROJECTS| + n + |IN_SECRETS|] == IN_SECRETS
    && Word(s[|PROJECTS| + n + |IN_SECRETS|..])
  }

  /** `projects/<6 to 20 digits>/secrets/<word>` */
  predicate ResourceShape(s: string) {
    exists n | 6 <= n <= 20 :: ResourceWith(s, n)
  }

  type Aliases = map<string, string>

  function AliasEntry(before: Aliases, entry: string): Result<Aliases, SyncError> {
    var parts := Split(Strip(entry), ':');
    if |parts| == 2 && Word(parts[0]) && ResourceShape(parts[1]) && parts[0] !in before then
      Ok(before[parts[0] := parts[1]])
    else Err(AliasInvalid)
  }

  function AliasEntries(entries: seq<string>): Result<Aliases, SyncError> {
    if entries == [] then Ok(map[])
    else
      var before :- AliasEntries(entries[..|entries| - 1]);
      AliasEntry(before, entries[|entries| - 1])
  }

  function ParseAliases(raw: Json): Result<Aliases, SyncError> {
    if !raw.Str? then Err(AliasInvalid) else AliasEntries(Split(raw.text, ','))
  }

  function AliasesIn(annotations: Json): Result<Aliases, SyncError> {
    if !annotations.Obj? || SECRETS !in annotations.fields then Ok(map[])
    else ParseAliases(annotations.fields[SECRETS])
  }

  function SecretAliases(spec: Fields): Result<Aliases, SyncError> {
    AliasesIn(Field(Field(Template(spec), "metadata"), "annotations"))
  }

  function AliasText(aliases: Aliases, names: seq<string>): seq<string>
    requires forall name | name in names :: name in aliases
  {
    seq(|names|, i requires 0 <= i < |names| => names[i] + ":" + aliases[names[i]])
  }

  /** Sorted by alias and joined with commas. */
  function PrintAliases(aliases: Aliases): string
    requires aliases != map[]
  {
    var names := Sorted(aliases.Keys);
    assert |names| == |aliases.Keys| > 0;
    Join(AliasText(aliases, names), ',')
  }

  // ----- the normalised template -----

  function WithoutEmpty(fields: Fields, key: string): Fields {
    if key in fields && fields[key] == Obj(map[]) then fields - {key} else fields
  }

  function CleanLabels(metadata: Fields): Result<Fields, SyncError> {
    var labels := Get(metadata, "labels");
    if labels.Null? then Ok(metadata)
    else if !labels.Obj? then Err(ShapeInvalid)
    else Ok(WithoutEmpty(metadata["labels" := Obj(labels.fields - {NONCE})], "labels"))
  }

  function CleanSecrets(annotations: Fields, ignored: set<string>): Result<Fields, SyncError> {
    if SECRETS !in annotations then Ok(annotations)
    else
      var aliases :- ParseAliases(annotations[SECRETS]);
      var kept := aliases - ignored;
      Ok(if kept == map[] then annotations - {SECRETS} else annotations[SECRETS := Str(PrintAliases(kept))])
  }

  function CleanAnnotations(metadata: Fields, ignored: set<string>): Result<Fields, SyncError> {
    var annotations := Get(metadata, "annotations");
    if annotations.Null? then Ok(metadata)
    else if !annotations.Obj? then Err(ShapeInvalid)
    else
      var clean :- CleanSecrets(annotations.fields - {CLIENT_NAME, CLIENT_VERSION}, ignored);
      Ok(WithoutEmpty(metadata["annotations" := Obj(clean)], "annotations"))
  }

  function CleanMetadata(template: Fields, ignored: set<string>): Result<Fields, SyncError> {
    var metadata := Get(template, "metadata");
    if metadata.Null? then Ok(template)
    else if !metadata.Obj? then Err(ShapeInvalid)
    else
      var labelled :- CleanLabels(metadata.fields - {"name"});
      var clean :- CleanAnnotations(labelled, ignored);
      Ok(WithoutEmpty(template["metadata" := Obj(clean)], "metadata"))
  }

  function Insert(row: Json, rows: seq<Json>): seq<Json> {
    if rows == [] || Le(NameOf(row), NameOf(rows[0])) then [row] + rows
    else [rows[0]] + Insert(row, rows[1..])
  }

  /** A stable sort by name. */
  function SortedRows(rows: seq<Json>): seq<Json> {
    if rows == [] then [] else Insert(rows[0], SortedRows(rows[1..]))
  }

  predicate Unrelated(row: Json) {
    row.Obj? && !IsFacts(NameOf(row))
  }

  function UnrelatedRows(rows: seq<Json>): seq<Json> {
    if rows == [] then []
    else if Unrelated(rows[0]) then [rows[0]] + UnrelatedRows(rows[1..])
    else UnrelatedRows(rows[1..])
  }

  function NormalSpec(spec: Fields, ignored: set<string>): Result<Fields, SyncError> {
    if !Template(spec).Obj? then Err(ShapeInvalid)
    else
      var template :- CleanMetadata(Template(spec).fields, ignored);
      if !OneContainer(spec) || !EnvRows(spec).List? then Err(ShapeInvalid)
      else
        var container := Obj(Container(spec)["env" := List(SortedRows(UnrelatedRows(EnvRows(spec).items)))]);
        var templateSpec := Obj(Field(Template(spec), "spec").fields["containers" := List([container])]);
        Ok(spec["template" := Obj(template["spec" := templateSpec])])
  }

  // ----- traffic -----

  datatype CanonicalRow = CanonicalRow(revision: string, percent: Option<Option<string>>, tag: Option<string>)

  /** Resolve a row that follows the latest revision; `latest` is None where such rows are not allowed. */
  function CanonicalTraffic(row: TrafficRow, latest: Option<string>): Result<CanonicalRow, SyncError> {
    if row.latest && (latest.None? || latest.value == "" || (row.revision.Some? && row.revision != latest)) then
      Err(TrafficInvalid)
    else
      var revision := if row.latest then latest else row.revision;
      if revision.None? || revision.value == "" || row.tag == Some("") then Err(TrafficInvalid)
      else Ok(CanonicalRow(revision.value, row.percent, row.tag))
  }

  /** The rows in an order of their own: as a multiset. */
  function TrafficDigest(rows: seq<TrafficRow>, latest: Option<string>): Result<multiset<CanonicalRow>, SyncError> {
    if rows == [] then Ok(multiset{})
    else
      var before :- TrafficDigest(rows[..|rows| - 1], latest);
      var row :- CanonicalTraffic(rows[|rows| - 1], latest);
      Ok(before + multiset{row})
  }

  // ----- who uses an alias -----

  function RefersTo(row: Json, alias: string): bool {
    Field(Field(Field(row, "valueFrom"), "secretKeyRef"), "name") == Str(alias)
  }

  function Mounts(volume: Json, alias: string): bool {
    Field(Field(volume, "secret"), "secretName") == Str(alias)
  }

  function Volumes(spec: Fields): Json {
    var volumes := Field(Field(Template(spec), "spec"), "volumes");
    if Falsy(volumes) then List([]) else volumes
  }

  function CountTokenUses(rows: seq<Json>, alias: string): nat {
    if rows == [] then 0
    else CountTokenUses(rows[..|rows| - 1], alias)
         + if RefersTo(rows[|rows| - 1], alias) && NameOf(rows[|rows| - 1]) == SYNC_TOKEN then 1 else 0
  }

  /** Does anything but the token variable use the alias? */
  predicate UsedElsewhere(spec: Fields, alias: string)
    requires OneContainer(spec)
  {
    || (EnvRows(spec).List? && exists row | row in EnvRows(spec).items :: RefersTo(row, alias) && NameOf(row) != SYNC_TOKEN)
    || (Volumes(spec).List? && exists volume | volume in Volumes(spec).items :: Mounts(volume, alias))
  }

  function TokenUses(spec: Fields, alias: string): nat
    requires OneContainer(spec)
  {
    if EnvRows(spec).List? then CountTokenUses(EnvRows(spec).items, alias) else 0
  }

  /** Malformed rows or volumes make the count itself fail. */
  predicate Countable(spec: Fields)
    requires OneContainer(spec)
  {
    && EnvRows(spec).List? && (forall row | row in EnvRows(spec).items :: row.Obj?)
    && Volumes(spec).List? && (forall volume | volume in Volumes(spec).items :: volume.Obj?)
  }

  function ResourceOf(projectNumber: string, secretName: string): string {
    PROJECTS + projectNumber + IN_SECRETS + secretName
  }

  function TokenReference(environment: Fields): Json {
    Field(Field(Get(environment, SYNC_TOKEN), "valueFrom"), "secretKeyRef")
  }

  /** Aliases of the wanted secret that nothing uses yet. */
  function Prospective(spec: Fields, aliases: Aliases, resource: string, taken: set<string>): set<string>
    requires OneContainer(spec)
  {
    set alias | alias in aliases && aliases[alias] == resource && alias !in taken
                && TokenUses(spec, alias) == 0 && !UsedElsewhere(spec, alias)
  }

  /** The alias by which the token names its secret, if the token alone uses it. */
  function OwnAlias(spec: Fields, aliases: Aliases, name: Json): set<string>
    requires OneContainer(spec)
  {
    if name.Str? && name.text in aliases && TokenUses(spec, name.text) == 1 && !UsedElsewhere(spec, name.text) then {name.text}
    else {}
  }

  /** The alias the token uses alone, and the one unused alias of the wanted secret, if there is just one. */
  function BaselineIgnored(spec: Fields, environment: Fields, resource: string): Result<set<string>, SyncError>
    requires OneContainer(spec)
  {
    var aliases :- SecretAliases(spec);
    var name := Field(TokenReference(environment), "name");
    if ((name.Str? && name.text in aliases) || resource in aliases.Values) && !Countable(spec) then Err(ShapeInvalid)
    else
      var current := OwnAlias(spec, aliases, name);
      var prospective := Prospective(spec, aliases, resource, current);
      Ok(current + if |prospective| == 1 then prospective else {})
  }

  /** The alias the token must use after the change, or none when it names the secret itself. */
  function TokenAlias(spec: Fields, environment: Fields, secretName: string, projectNumber: string)
    : Result<Option<string>, SyncError>
    requires OneContainer(spec)
  {
    var reference := TokenReference(environment);
    if !reference.Obj? || Get(reference.fields, "key") != Str("latest")
       || (Get(environment, SYNC_TOKEN).Obj? && "value" in Get(environment, SYNC_TOKEN).fields)
       || !Get(reference.fields, "name").Str? then Err(ReferenceMismatch)
    else
      var name := Get(reference.fields, "name").text;
      var aliases :- SecretAliases(spec);
      if name in aliases then
        if aliases[name] != ResourceOf(projectNumber, secretName) then Err(ReferenceMismatch)
        else if !Countable(spec) then Err(ShapeInvalid)
        else if TokenUses(spec, name) != 1 || UsedElsewhere(spec, name) then Err(AliasShared)
        else Ok(Some(name))
      else if name == secretName then Ok(None)
      else Err(ReferenceMismatch)
  }

  // ----- before and after -----

  datatype Baseline = Baseline(template: Fields, specTraffic: multiset<CanonicalRow>, statusTraffic: multiset<CanonicalRow>)

  function VerifyBefore(s: Service, fits: Fields -> bool, secretName: string, projectNumber: string)
    : Result<Baseline, SyncError>
  {
    var environment :- ServiceEnvironment(s, fits);
    var ignored :- BaselineIgnored(s.spec, environment, ResourceOf(projectNumber, secretName));
    var template :- NormalSpec(s.spec, ignored);
    var specTraffic :- TrafficDigest(s.specTraffic, Some(s.created));
    var statusTraffic :- TrafficDigest(s.statusTraffic, None);
    Ok(Baseline(template, specTraffic, statusTraffic))
  }

  predicate FactsSet(environment: Fields, desired: map<string, string>, name: string) {
    && name in environment && environment[name].Obj?
    && Get(environment[name].fields, "value") == (if name in desired then Str(desired[name]) else Null)
    && "valueFrom" !in environment[name].fields
  }

  /** None when the change is accepted. */
  function VerifyAfter(s: Service, fits: Fields -> bool, desired: map<string, string>, secretName: string,
                       projectNumber: string, baseline: Baseline): Option<SyncError>
  {
    match ServiceEnvironment(s, fits)
    case Err(error) => Some(error)
    case Ok(environment) =>
      match TokenAlias(s.spec, environment, secretName, projectNumber)
      case Err(error) => Some(error)
      case Ok(alias) =>
        if exists name | name in FACTS_FIELDS :: !FactsSet(environment, desired, name) then Some(ConfigurationMismatch)
        else
          match NormalSpec(s.spec, if alias.Some? then {alias.value} else {})
          case Err(error) => Some(error)
          case Ok(template) =>
            if template != baseline.template then Some(ConfigurationChanged)
            else
              match (TrafficDigest(s.specTraffic, Some(s.created)), TrafficDigest(s.statusTraffic, None))
              case (Err(error), _) => Some(error)
              case (Ok(specTraffic), statusTraffic) =>
                if specTraffic != baseline.specTraffic then Some(TrafficChanged)
                else if statusTraffic.Err? then Some(statusTraffic.error)
                else if statusTraffic.value != baseline.statusTraffic then Some(TrafficChanged)
                else None
  }

  // ----- the alias annotation reads back as printed -----

  predicate ValidAliases(aliases: Aliases) {
    forall alias | alias in aliases :: Word(alias) && ResourceShape(aliases[alias])
  }

  lemma WordFree(s: string)
    requires Word(s)
    ensures ',' !in s && ':' !in s && !Space(s[0]) && !Space(s[|s| - 1])
  {
  }

  lemma ResourceFree(s: string)
    requires ResourceShape(s)
    ensures ',' !in s && ':' !in s && s != [] && !Space(s[|s| - 1])
  {
    var n :| 6 <= n <= 20 && ResourceWith(s, n);
    var digits, word := s[|PROJECTS|..|PROJECTS| + n], s[|PROJECTS| + n + |IN_SECRETS|..];
    assert s == PROJECTS + digits + IN_SECRETS + word;
    assert Word(word) && AllDigits(digits);
    hide ResourceWith, Word;
    WordFree(word);
    JoinedFree(PROJECTS, digits, IN_SECRETS, word, ',');
    JoinedFree(PROJECTS, digits, IN_SECRETS, word, ':');
    assert s[|s| - 1] == word[|word| - 1];
  }

  lemma JoinedFree(a: string, b: string, c: string, d: string, x: char)
    requires x !in a && x !in b && x !in c && x !in d
    ensures x !in a + b + c + d
  {
  }

  lemma EntryReadsBack(before: Aliases, alias: string, resource: string)
    requires Word(alias) && ResourceShape(resource) && alias !in before
    ensures AliasEntry(before, alias + ":" + resource) == Ok(before[alias := resource])
    ensures ',' !in alias + ":" + resource
  {
    WordFree(alias);
    ResourceFree(resource);
    hide Word, ResourceShape;
    var entry := alias + ":" + resource;
    assert entry[0] == alias[0] && entry[|entry| - 1] == resource[|resource| - 1];
    StripKeeps(entry);
    SplitFirst(alias, ':', resource);
    SplitFree(resource, ':');
    assert Split(entry, ':') == [alias] + [resource];
  }

  function Restricted(aliases: Aliases, names: seq<string>): Aliases {
    map name | name in aliases && name in names :: aliases[name]
  }

  lemma RestrictedGrows(aliases: Aliases, init: seq<string>, last: string)
    requires last in aliases
    ensures Restricted(aliases, init)[last := aliases[last]] == Restricted(aliases, init + [last])
  {
  }

  lemma {:induction false} EntriesReadBack(aliases: Aliases, names: seq<string>)
    requires ValidAliases(aliases) && (forall name | name in names :: name in aliases)
    requires forall i, j | 0 <= i < j < |names| :: names[i] != names[j]
    ensures AliasEntries(AliasText(aliases, names)) == Ok(Restricted(aliases, names))
    ensures forall entry | entry in AliasText(aliases, names) :: ',' !in entry
  {
    hide Word, ResourceShape, AliasEntry;
    var texts := AliasText(aliases, names);
    if names == [] {
      assert Restricted(aliases, names) == map[];
    } else {
      var init, last := names[..|names| - 1], names[|names| - 1];
      assert names == init + [last] && last in names && last !in init;
      EntriesReadBack(aliases, init);
      assert texts[..|texts| - 1] == AliasText(aliases, init);
      RestrictedGrows(aliases, init, last);
      EntryReadsBack(Restricted(aliases, init), last, aliases[last]);
      hide Restricted;
      assert texts == AliasText(aliases, init) + [last + ":" + aliases[last]];
    }
  }

  /** Printing aliases and parsing the text gives the same aliases. */
  lemma AliasesReadBack(aliases: Aliases)
    requires ValidAliases(aliases) && aliases != map[]
    ensures ParseAliases(Str(PrintAliases(aliases))) == Ok(aliases)
  {
    var names := Sorted(aliases.Keys);
    assert |names| == |aliases.Keys| > 0;
    assert PrintAliases(aliases) == Join(AliasText(aliases, names), ',');
    assert Restricted(aliases, names) == aliases;
    hide Sorted, PrintAliases, Restricted, ValidAliases, AliasEntries, Join, Split;
    EntriesReadBack(aliases, names);
    SplitJoined(AliasText(aliases, names), ',');
  }

  lemma {:induction false} ParsedValid(entries: seq<string>)
    ensures AliasEntries(entries).Ok? ==> ValidAliases(AliasEntries(entries).value)
  {
    hide Word, ResourceShape, Split, Strip;
    if entries != [] {
      ParsedValid(entries[..|entries| - 1]);
    }
  }

  // ----- what the digest keeps -----

  function FieldsOf(j: Json): Fields {
    if j.Obj? then j.fields else map[]
  }

  /** Everything the change must leave alone. */
  datatype Kept = Kept(
    spec: Fields,
    template: Fields,
    templateSpec: Fields,
    container: Fields,
    environment: set<Json>,
    metadata: Fields,
    labels: Fields,
    annotations: Fields,
    aliases: Aliases)

  function UnrelatedSet(rows: seq<Json>): set<Json> {
    set row | row in rows && Unrelated(row)
  }

  function MetadataOf(template: Json): Json {
    Field(template, "metadata")
  }

  function KeptMetadata(metadata: Json): Fields {
    FieldsOf(metadata) - {"name", "labels", "annotations"}
  }

  function KeptLabels(metadata: Json): Fields {
    FieldsOf(Field(metadata, "labels")) - {NONCE}
  }

  function KeptAnnotations(metadata: Json): Fields {
    FieldsOf(Field(metadata, "annotations")) - {CLIENT_NAME, CLIENT_VERSION, SECRETS}
  }

  predicate Digestible(spec: Fields) {
    Template(spec).Obj? && OneContainer(spec) && EnvRows(spec).List? && SecretAliases(spec).Ok?
  }

  function KeptOf(spec: Fields, ignored: set<string>): Kept
    requires Digestible(spec)
  {
    var template := Template(spec);
    Kept(spec - {"template"},
         template.fields - {"metadata", "spec"},
         FieldsOf(Field(template, "spec")) - {"containers"},
         Container(spec) - {"env"},
         UnrelatedSet(EnvRows(spec).items),
         KeptMetadata(MetadataOf(template)),
         KeptLabels(MetadataOf(template)),
         KeptAnnotations(MetadataOf(template)),
         SecretAliases(spec).value - ignored)
  }

  lemma SecretsKept(annotations: Fields, ignored: set<string>)
    requires CleanSecrets(annotations, ignored).Ok?
    ensures var clean := CleanSecrets(annotations, ignored).value;
      && clean - {SECRETS} == annotations - {SECRETS}
      && AliasesIn(Obj(annotations)).Ok?
      && AliasesIn(Obj(clean)) == Ok(AliasesIn(Obj(annotations)).value - ignored)
  {
    hide ParseAliases, PrintAliases, Word, ResourceShape;
    var nothing: Aliases := map[];
    assert nothing - ignored == nothing;
    if SECRETS in annotations {
      ParsedAliasesValid(annotations[SECRETS]);
      var kept := ParseAliases(annotations[SECRETS]).value - ignored;
      assert ValidAliases(kept);
      if kept != map[] {
        AliasesReadBack(kept);
      }
    }
  }

  lemma ParsedAliasesValid(raw: Json)
    ensures ParseAliases(raw).Ok? ==> ValidAliases(ParseAliases(raw).value)
  {
    if raw.Str? {
      ParsedValid(Split(raw.text, ','));
    }
  }

  lemma WithoutEmptyKeeps(fields: Fields, key: string)
    ensures var clean := WithoutEmpty(fields, key);
      clean - {key} == fields - {key} && FieldsOf(Get(clean, key)) == FieldsOf(Get(fields, key))
  {
  }

  lemma LabelsKept(metadata: Fields)
    requires CleanLabels(metadata).Ok?
    ensures var clean := CleanLabels(metadata).value;
      && clean - {"labels"} == metadata - {"labels"}
      && KeptLabels(Obj(clean)) == KeptLabels(Obj(metadata))
  {
    var labels := Get(metadata, "labels");
    if labels.Obj? {
      WithoutEmptyKeeps(metadata["labels" := Obj(labels.fields - {NONCE})], "labels");
    }
  }

  lemma AnnotationsKept(metadata: Fields, ignored: set<string>)
    requires CleanAnnotations(metadata, ignored).Ok?
    ensures var clean := CleanAnnotations(metadata, ignored).value;
      && clean - {"annotations"} == metadata - {"annotations"}
      && KeptAnnotations(Obj(clean)) == KeptAnnotations(Obj(metadata))
      && AliasesIn(Get(metadata, "annotations")).Ok?
      && AliasesIn(Get(clean, "annotations")) == Ok(AliasesIn(Get(metadata, "annotations")).value - ignored)
  {
    hide ParseAliases, PrintAliases;
    var nothing: Aliases := map[];
    assert nothing - ignored == nothing;
    var annotations := Get(metadata, "annotations");
    if annotations.Obj? {
      var plain := annotations.fields - {CLIENT_NAME, CLIENT_VERSION};
      SecretsKept(plain, ignored);
      var secrets := CleanSecrets(plain, ignored).value;
      assert AliasesIn(Obj(plain)) == AliasesIn(annotations);
      WithoutEmptyKeeps(metadata["annotations" := Obj(secrets)], "annotations");
      hide CleanSecrets;
      SameAnnotations(plain, secrets);
      var clean := WithoutEmpty(metadata["annotations" := Obj(secrets)], "annotations");
      assert FieldsOf(Get(clean, "annotations")) == secrets;
      assert AliasesIn(Get(clean, "annotations")) == AliasesIn(Obj(secrets));
    }
  }

  lemma SameAnnotations(a: Fields, b: Fields)
    requires a - {SECRETS} == b - {SECRETS}
    ensures a - {CLIENT_NAME, CLIENT_VERSION, SECRETS} == b - {CLIENT_NAME, CLIENT_VERSION, SECRETS}
  {
    assert a - {CLIENT_NAME, CLIENT_VERSION, SECRETS} == (a - {SECRETS}) - {CLIENT_NAME, CLIENT_VERSION};
    assert b - {CLIENT_NAME, CLIENT_VERSION, SECRETS} == (b - {SECRETS}) - {CLIENT_NAME, CLIENT_VERSION};
  }

  /** What stays of the metadata, from its parts. */
  lemma MetadataKept(template: Fields, ignored: set<string>)
    requires CleanMetadata(template, ignored).Ok?
    ensures var clean := CleanMetadata(template, ignored).value;
      var before, after := Get(template, "metadata"), Get(clean, "metadata");
      && clean - {"metadata"} == template - {"metadata"}
      && KeptMetadata(after) == KeptMetadata(before)
      && KeptLabels(after) == KeptLabels(before)
      && KeptAnnotations(after) == KeptAnnotations(before)
      && AliasesIn(Field(before, "annotations")).Ok?
      && AliasesIn(Field(after, "annotations")) == Ok(AliasesIn(Field(before, "annotations")).value - ignored)
  {
    var nothing: Aliases := map[];
    assert nothing - ignored == nothing;
    var metadata := Get(template, "metadata");
    if metadata.Obj? {
      var named := metadata.fields - {"name"};
      LabelsKept(named);
      var labelled := CleanLabels(named).value;
      AnnotationsKept(labelled, ignored);
      var clean := CleanAnnotations(labelled, ignored).value;
      WithoutEmptyKeeps(template["metadata" := Obj(clean)], "metadata");
      hide CleanLabels, CleanAnnotations, AliasesIn;
      PartsKept(metadata.fields, named, labelled, clean);
      var after := Get(WithoutEmpty(template["metadata" := Obj(clean)], "metadata"), "metadata");
      assert FieldsOf(after) == clean;
      EmptyOrNull(after, clean);
    }
  }

  /** Empty metadata that was dropped shows the same as metadata with no fields. */
  lemma EmptyOrNull(after: Json, clean: Fields)
    requires FieldsOf(after) == clean && (after.Null? || after.Obj?)
    ensures KeptMetadata(after) == KeptMetadata(Obj(clean)) && KeptLabels(after) == KeptLabels(Obj(clean))
    ensures KeptAnnotations(after) == KeptAnnotations(Obj(clean))
    ensures AliasesIn(Field(after, "annotations")) == AliasesIn(Get(clean, "annotations"))
  {
    hide ParseAliases;
  }

  lemma PartsKept(metadata: Fields, named: Fields, labelled: Fields, clean: Fields)
    requires named == metadata - {"name"}
    requires labelled - {"labels"} == named - {"labels"} && clean - {"annotations"} == labelled - {"annotations"}
    ensures clean - {"name", "labels", "annotations"} == metadata - {"name", "labels", "annotations"}
    ensures Get(clean, "labels") == Get(labelled, "labels") && Get(named, "labels") == Get(metadata, "labels")
    ensures Get(labelled, "annotations") == Get(metadata, "annotations")
  {
    forall key | key != "annotations" ensures Get(clean, key) == Get(labelled, key) && (key in clean <==> key in labelled) {
      Same(clean, labelled, "annotations", key);
    }
    forall key | key != "labels" ensures Get(labelled, key) == Get(named, key) && (key in labelled <==> key in named) {
      Same(labelled, named, "labels", key);
    }
  }

  lemma Same(a: Fields, b: Fields, except: string, key: string)
    requires a - {except} == b - {except} && key != except
    ensures Get(a, key) == Get(b, key) && (key in a <==> key in b)
  {
    assert key in a <==> key in a - {except};
    assert key in b <==> key in b - {except};
    assert key in a ==> (a - {except})[key] == a[key];
    assert key in b ==> (b - {except})[key] == b[key];
  }

  lemma {:induction false} InsertKeeps(row: Json, rows: seq<Json>)
    ensures forall x :: x in Insert(row, rows) <==> x == row || x in rows
    ensures |Insert(row, rows)| == |rows| + 1
  {
    hide Le, NameOf;
    if rows != [] {
      InsertKeeps(row, rows[1..]);
      assert rows == [rows[0]] + rows[1..];
    }
  }

  lemma {:induction false} SortKeeps(rows: seq<Json>)
    ensures forall x :: x in SortedRows(rows) <==> x in rows
  {
    if rows != [] {
      SortKeeps(rows[1..]);
      InsertKeeps(rows[0], SortedRows(rows[1..]));
      assert rows == [rows[0]] + rows[1..];
    }
  }

  lemma {:induction false} FilterKeeps(rows: seq<Json>)
    ensures forall x :: x in UnrelatedRows(rows) <==> x in rows && Unrelated(x)
  {
    hide Unrelated;
    if rows != [] {
      FilterKeeps(rows[1..]);
      assert rows == [rows[0]] + rows[1..];
    }
  }

  lemma RowsKept(rows: seq<Json>)
    ensures UnrelatedSet(SortedRows(UnrelatedRows(rows))) == UnrelatedSet(rows)
  {
    SortKeeps(UnrelatedRows(rows));
    FilterKeeps(rows);
    hide SortedRows, UnrelatedRows, Unrelated;
    assert forall row :: row in UnrelatedSet(SortedRows(UnrelatedRows(rows))) <==> row in UnrelatedSet(rows);
  }

  /** The normalised spec, field by field. */
  lemma NormalParts(spec: Fields, ignored: set<string>)
    requires NormalSpec(spec, ignored).Ok?
    ensures Template(spec).Obj? && CleanMetadata(Template(spec).fields, ignored).Ok?
    ensures OneContainer(spec) && EnvRows(spec).List?
    ensures var n := NormalSpec(spec, ignored).value;
      var template := CleanMetadata(Template(spec).fields, ignored).value;
      var rows := SortedRows(UnrelatedRows(EnvRows(spec).items));
      && Template(n).Obj? && OneContainer(n) && EnvRows(n) == List(rows)
      && n - {"template"} == spec - {"template"}
      && Template(n).fields - {"metadata", "spec"} == template - {"metadata", "spec"}
      && MetadataOf(Template(n)) == Get(template, "metadata")
      && FieldsOf(Field(Template(n), "spec")) - {"containers"} == FieldsOf(Field(Template(spec), "spec")) - {"containers"}
      && Container(n) - {"env"} == Container(spec) - {"env"}
  {
    hide CleanMetadata, SortedRows, UnrelatedRows;
  }

  /** Normalising keeps what it must: read back, a normalised spec shows the same as the original. */
  lemma DigestKeeps(spec: Fields, ignored: set<string>)
    requires NormalSpec(spec, ignored).Ok?
    ensures Digestible(spec) && Digestible(NormalSpec(spec, ignored).value)
    ensures KeptOf(NormalSpec(spec, ignored).value, {}) == KeptOf(spec, ignored)
  {
    NormalParts(spec, ignored);
    MetadataKept(Template(spec).fields, ignored);
    RowsKept(EnvRows(spec).items);
    var n := NormalSpec(spec, ignored).value;
    var clean := CleanMetadata(Template(spec).fields, ignored).value;
    hide NormalSpec, CleanMetadata, SortedRows, UnrelatedRows, EnvRows, Containers, AliasesIn, UnrelatedSet,
      KeptMetadata, KeptLabels, KeptAnnotations;
    assert SecretAliases(spec) == AliasesIn(Field(Get(Template(spec).fields, "metadata"), "annotations"));
    assert SecretAliases(n) == AliasesIn(Field(Get(clean, "metadata"), "annotations"));
    SameTemplate(clean, Template(spec).fields);
    assert SecretAliases(n).value - {} == SecretAliases(n).value;
  }

  lemma SameTemplate(a: Fields, b: Fields)
    requires a - {"metadata"} == b - {"metadata"}
    ensures a - {"metadata", "spec"} == b - {"metadata", "spec"}
  {
    assert a - {"metadata", "spec"} == (a - {"metadata"}) - {"spec"};
    assert b - {"metadata", "spec"} == (b - {"metadata"}) - {"spec"};
  }

  // ----- the environment by name and as rows -----

  /** One entry for each row, under its name, and no other. */
  ghost predicate ByName(environment: Fields, rows: seq<Json>) {
    && (forall row | row in rows :: Named(row) && NameOf(row) in environment && environment[NameOf(row)] == row)
    && (forall name | name in environment :: environment[name] in rows && NameOf(environment[name]) == name)
  }

  lemma ByNameGrows(environment: Fields, init: seq<Json>, last: Json)
    requires ByName(environment, init) && Named(last) && NameOf(last) !in environment
    ensures ByName(environment[NameOf(last) := last], init + [last])
  {
    hide Named, NameOf;
  }

  lemma {:induction false} EnvironmentIs(rows: seq<Json>)
    requires EnvironmentOf(rows).Ok?
    ensures ByName(EnvironmentOf(rows).value, rows)
  {
    hide Named, NameOf;
    if rows != [] {
      var init, last := rows[..|rows| - 1], rows[|rows| - 1];
      assert rows == init + [last];
      EnvironmentIs(init);
      hide ByName;
      ByNameGrows(EnvironmentOf(init).value, init, last);
    }
  }

  /** With the same unrelated rows, every unrelated variable is the same, present or absent. */
  lemma SameUnrelated(a: seq<Json>, b: seq<Json>, name: string)
    requires EnvironmentOf(a).Ok? && EnvironmentOf(b).Ok? && UnrelatedSet(a) == UnrelatedSet(b) && !IsFacts(name)
    ensures name in EnvironmentOf(a).value ==>
              name in EnvironmentOf(b).value && EnvironmentOf(b).value[name] == EnvironmentOf(a).value[name]
  {
    EnvironmentIs(a);
    EnvironmentIs(b);
    hide EnvironmentOf, IsFacts;
    if name in EnvironmentOf(a).value {
      var row := EnvironmentOf(a).value[name];
      assert row in UnrelatedSet(a);
      assert row in b;
    }
  }

  // ----- ignored aliases are nobody else's -----

  predicate NotShared(spec: Fields, aliases: set<string>)
    requires OneContainer(spec)
  {
    forall alias | alias in aliases :: !UsedElsewhere(spec, alias)
  }

  lemma BaselineIgnoresUnshared(spec: Fields, environment: Fields, resource: string)
    requires OneContainer(spec) && BaselineIgnored(spec, environment, resource).Ok?
    ensures SecretAliases(spec).Ok?
    ensures forall alias | alias in BaselineIgnored(spec, environment, resource).value :: !UsedElsewhere(spec, alias)
  {
    hide SecretAliases, UsedElsewhere, TokenUses, Countable;
  }

  lemma TokenAliasUnshared(spec: Fields, environment: Fields, secretName: string, projectNumber: string)
    requires OneContainer(spec) && TokenAlias(spec, environment, secretName, projectNumber).Ok?
    ensures SecretAliases(spec).Ok?
    ensures var alias := TokenAlias(spec, environment, secretName, projectNumber).value;
      alias.Some? ==>
        && !UsedElsewhere(spec, alias.value) && TokenUses(spec, alias.value) == 1
        && alias.value in SecretAliases(spec).value
        && SecretAliases(spec).value[alias.value] == ResourceOf(projectNumber, secretName)
  {
    hide SecretAliases, UsedElsewhere, TokenUses, Countable;
  }

  /**
   * The token variable holds no value of its own but a reference to the latest version of this secret, by an
   * alias of it or by its own name.
   */
  predicate TokenFrom(spec: Fields, environment: Fields, secretName: string, projectNumber: string)
    requires SecretAliases(spec).Ok?
  {
    var aliases, reference := SecretAliases(spec).value, TokenReference(environment);
    && "value" !in FieldsOf(Get(environment, SYNC_TOKEN))
    && Field(reference, "key") == Str("latest")
    && var name := Field(reference, "name");
       && name.Str?
       && (if name.text in aliases then aliases[name.text] else ResourceOf(projectNumber, name.text))
          == ResourceOf(projectNumber, secretName)
  }

  lemma TokenResolves(spec: Fields, environment: Fields, secretName: string, projectNumber: string)
    requires OneContainer(spec) && TokenAlias(spec, environment, secretName, projectNumber).Ok?
    ensures SecretAliases(spec).Ok? && TokenFrom(spec, environment, secretName, projectNumber)
  {
    hide SecretAliases, UsedElsewhere, TokenUses, Countable, ResourceOf;
  }

  // ----- the theorem -----

  /** What an accepted change has in common before and after. */
  predicate Untouched(before: Service, after: Service)
    requires Digestible(before.spec) && Digestible(after.spec)
  {
    var k, n := KeptOf(before.spec, {}), KeptOf(after.spec, {});
    && k.spec == n.spec && k.template == n.template && k.templateSpec == n.templateSpec && k.container == n.container
    && k.metadata == n.metadata && k.labels == n.labels && k.annotations == n.annotations
    && TrafficDigest(before.specTraffic, Some(before.created)) == TrafficDigest(after.specTraffic, Some(after.created))
    && TrafficDigest(before.statusTraffic, None) == TrafficDigest(after.statusTraffic, None)
  }

  lemma BeforeParts(s: Service, fits: Fields -> bool, secretName: string, projectNumber: string)
    requires VerifyBefore(s, fits, secretName, projectNumber).Ok?
    ensures ServiceEnvironment(s, fits).Ok? && OneContainer(s.spec) && EnvRows(s.spec).List?
    ensures EnvironmentOf(EnvRows(s.spec).items) == ServiceEnvironment(s, fits)
    ensures var ignored := BaselineIgnored(s.spec, ServiceEnvironment(s, fits).value, ResourceOf(projectNumber, secretName));
      && ignored.Ok?
      && var b := VerifyBefore(s, fits, secretName, projectNumber).value;
         && NormalSpec(s.spec, ignored.value) == Ok(b.template)
         && TrafficDigest(s.specTraffic, Some(s.created)) == Ok(b.specTraffic)
         && TrafficDigest(s.statusTraffic, None) == Ok(b.statusTraffic)
  {
    hide NormalSpec, BaselineIgnored, TrafficDigest, EnvironmentOf, Containers, EnvRows;
  }

  function TokenIgnored(alias: Option<string>): set<string> {
    if alias.Some? then {alias.value} else {}
  }

  lemma AfterParts(s: Service, fits: Fields -> bool, desired: map<string, string>, secretName: string,
                   projectNumber: string, b: Baseline)
    requires VerifyAfter(s, fits, desired, secretName, projectNumber, b) == None
    ensures ServiceEnvironment(s, fits).Ok? && OneContainer(s.spec) && EnvRows(s.spec).List?
    ensures EnvironmentOf(EnvRows(s.spec).items) == ServiceEnvironment(s, fits)
    ensures forall name | name in FACTS_FIELDS :: FactsSet(ServiceEnvironment(s, fits).value, desired, name)
    ensures var alias := TokenAlias(s.spec, ServiceEnvironment(s, fits).value, secretName, projectNumber);
      && alias.Ok?
      && NormalSpec(s.spec, TokenIgnored(alias.value)) == Ok(b.template)
      && TrafficDigest(s.specTraffic, Some(s.created)) == Ok(b.specTraffic)
      && TrafficDigest(s.statusTraffic, None) == Ok(b.statusTraffic)
  {
    hide NormalSpec, TokenAlias, TrafficDigest, EnvironmentOf, Containers, EnvRows, FactsSet;
  }

  /**
   * The configuration frame. If the check after a change accepts it against the baseline taken before, then
   * apart from the seven facts variables the environment is the same, name by name; every other field of the
   * container, of the template and of the spec is the same, as are labels and annotations up to those the client
   * itself stamps; every alias outside the ignored ones names the same secret, and the ignored ones are used by
   * nothing but the facts token; the traffic, resolved to concrete revisions, is the same. And the six facts
   * fields now hold what was asked for, and the token comes from the latest version of the wanted secret.
   */
  lemma ConfigurationFrame(before: Service, after: Service, fits: Fields -> bool, desired: map<string, string>,
                           secretName: string, projectNumber: string)
    returns (i: set<string>, j: set<string>)
    requires VerifyBefore(before, fits, secretName, projectNumber).Ok?
    requires VerifyAfter(after, fits, desired, secretName, projectNumber,
                         VerifyBefore(before, fits, secretName, projectNumber).value) == None
    ensures Digestible(before.spec) && Digestible(after.spec) && Untouched(before, after)
    ensures ServiceEnvironment(before, fits).Ok? && ServiceEnvironment(after, fits).Ok?
    ensures var m, n := ServiceEnvironment(before, fits).value, ServiceEnvironment(after, fits).value;
      && (forall name | !IsFacts(name) :: name in m <==> name in n)
      && (forall name | !IsFacts(name) && name in m :: m[name] == n[name])
      && (forall name | name in FACTS_FIELDS :: FactsSet(n, desired, name))
    ensures var m, n := ServiceEnvironment(before, fits).value, ServiceEnvironment(after, fits).value;
      && BaselineIgnored(before.spec, m, ResourceOf(projectNumber, secretName)) == Ok(i)
      && TokenAlias(after.spec, n, secretName, projectNumber).Ok?
      && j == TokenIgnored(TokenAlias(after.spec, n, secretName, projectNumber).value)
      && TokenFrom(after.spec, n, secretName, projectNumber)
    ensures SecretAliases(before.spec).value - i == SecretAliases(after.spec).value - j
    ensures NotShared(before.spec, i) && NotShared(after.spec, j)
  {
    var b := VerifyBefore(before, fits, secretName, projectNumber).value;
    BeforeParts(before, fits, secretName, projectNumber);
    AfterParts(after, fits, desired, secretName, projectNumber, b);
    var m, n := ServiceEnvironment(before, fits).value, ServiceEnvironment(after, fits).value;
    var resource := ResourceOf(projectNumber, secretName);
    i := BaselineIgnored(before.spec, m, resource).value;
    j := TokenIgnored(TokenAlias(after.spec, n, secretName, projectNumber).value);
    DigestKeeps(before.spec, i);
    DigestKeeps(after.spec, j);
    BaselineIgnoresUnshared(before.spec, m, resource);
    TokenAliasUnshared(after.spec, n, secretName, projectNumber);
    TokenResolves(after.spec, n, secretName, projectNumber);
    assert KeptOf(before.spec, i) == KeptOf(after.spec, j);
    assert NotShared(before.spec, i) && NotShared(after.spec, j);
    hide VerifyBefore, VerifyAfter, NormalSpec, BaselineIgnored, TokenAlias, TrafficDigest, EnvironmentOf, EnvRows,
      Containers, NotShared, TokenFrom, UsedElsewhere, SecretAliases, FactsSet, ServiceEnvironment, UnrelatedSet;
    KeptAgrees(before, after, i, j);
    forall name | !IsFacts(name)
      ensures name in m <==> name in n
      ensures name in m ==> m[name] == n[name]
    {
      SameUnrelated(EnvRows(before.spec).items, EnvRows(after.spec).items, name);
      SameUnrelated(EnvRows(after.spec).items, EnvRows(before.spec).items, name);
    }
  }

  lemma KeptAgrees(before: Service, after: Service, i: set<string>, j: set<string>)
    requires Digestible(before.spec) && Digestible(after.spec) && KeptOf(before.spec, i) == KeptOf(after.spec, j)
    requires TrafficDigest(before.specTraffic, Some(before.created)) == TrafficDigest(after.specTraffic, Some(after.created))
    requires TrafficDigest(before.statusTraffic, None) == TrafficDigest(after.statusTraffic, None)
    ensures Untouched(before, after)
    ensures SecretAliases(before.spec).value - i == SecretAliases(after.spec).value - j
    ensures UnrelatedSet(EnvRows(before.spec).items) == UnrelatedSet(EnvRows(after.spec).items)
  {
    var k, n := KeptOf(before.spec, i), KeptOf(after.spec, j);
    assert KeptOf(before.spec, {}) == k.(aliases := SecretAliases(before.spec).value - {});
    assert KeptOf(after.spec, {}) == n.(aliases := SecretAliases(after.spec).value - {});
    hide KeptMetadata, KeptLabels, KeptAnnotations, UnrelatedSet, TrafficDigest, SecretAliases;
  }

  /** Some variable other than the token names the alias in its secret reference. */
  predicate Refers(spec: Fields, alias: string)
    requires OneContainer(spec)
  {
    EnvRows(spec).List?
    && exists row ::
         && row in EnvRows(spec).items && NameOf(row) != "FIRSTRADE_ACCOUNT_FACTS_SYNC_TOKEN"
         && Field(Field(Field(row, "valueFrom"), "secretKeyRef"), "name") == Str(alias)
  }

  /** Some volume of the template holds the secret of this alias. */
  predicate Mounted(spec: Fields, alias: string) {
    var volumes := Field(Field(Template(spec), "spec"), "volumes");
    volumes.List? && exists volume :: volume in volumes.items && Field(Field(volume, "secret"), "secretName") == Str(alias)
  }

  lemma UsedExactly(spec: Fields, alias: string)
    requires OneContainer(spec)
    ensures UsedElsewhere(spec, alias) <==> Refers(spec, alias) || Mounted(spec, alias)
  {
    hide EnvRows, OneContainer;
  }

  /** So a secret that any other variable or volume uses keeps its alias and its resource. */
  lemma SharedAliasesKept(before: Service, after: Service, fits: Fields -> bool, desired: map<string, string>,
                          secretName: string, projectNumber: string, alias: string)
    requires VerifyBefore(before, fits, secretName, projectNumber).Ok?
    requires VerifyAfter(after, fits, desired, secretName, projectNumber,
                         VerifyBefore(before, fits, secretName, projectNumber).value) == None
    ensures Digestible(before.spec) && Digestible(after.spec)
    ensures var m, n := SecretAliases(before.spec).value, SecretAliases(after.spec).value;
      && (alias in m && (Refers(before.spec, alias) || Mounted(before.spec, alias)) ==> alias in n && n[alias] == m[alias])
      && (alias in n && (Refers(after.spec, alias) || Mounted(after.spec, alias)) ==> alias in m && n[alias] == m[alias])
  {
    UsedExactly(before.spec, alias);
    UsedExactly(after.spec, alias);
    var i, j := ConfigurationFrame(before, after, fits, desired, secretName, projectNumber);
    var m, n := SecretAliases(before.spec).value, SecretAliases(after.spec).value;
    hide VerifyBefore, VerifyAfter, Untouched, SecretAliases, UsedElsewhere, ServiceEnvironment, FactsSet, Refers, Mounted;
    assert alias in m && alias !in i ==> alias in m - i && (m - i)[alias] == m[alias];
    assert alias in n && alias !in j ==> alias in n - j && (n - j)[alias] == n[alias];
    assert alias in m - i ==> alias in n - j && (n - j)[alias] == n[alias];
    assert alias in n - j ==> alias in m - i && (m - i)[alias] == m[alias];
  }

  // ----- when nothing changed at all -----

  /** The aliases of the wanted secret that nothing uses, besides the one the token uses. */
  function Spare(spec: Fields, alias: Option<string>, resource: string): set<string>
    requires OneContainer(spec) && SecretAliases(spec).Ok?
  {
    Prospective(spec, SecretAliases(spec).value, resource, TokenIgnored(alias))
  }

  lemma IgnoredAround(spec: Fields, environment: Fields, secretName: string, projectNumber: string)
    requires OneContainer(spec)
    requires TokenAlias(spec, environment, secretName, projectNumber).Ok?
    requires BaselineIgnored(spec, environment, ResourceOf(projectNumber, secretName)).Ok?
    ensures SecretAliases(spec).Ok?
    ensures var alias := TokenAlias(spec, environment, secretName, projectNumber).value;
      var spare := Spare(spec, alias, ResourceOf(projectNumber, secretName));
      BaselineIgnored(spec, environment, ResourceOf(projectNumber, secretName)).value
      == TokenIgnored(alias) + if |spare| == 1 then spare else {}
  {
    TokenOwns(spec, environment, secretName, projectNumber);
    hide SecretAliases, TokenAlias, OwnAlias, Prospective, Countable, ResourceOf, TokenReference;
  }

  lemma TokenOwns(spec: Fields, environment: Fields, secretName: string, projectNumber: string)
    requires OneContainer(spec) && TokenAlias(spec, environment, secretName, projectNumber).Ok?
    ensures SecretAliases(spec).Ok?
    ensures OwnAlias(spec, SecretAliases(spec).value, Field(TokenReference(environment), "name"))
         == TokenIgnored(TokenAlias(spec, environment, secretName, projectNumber).value)
  {
    hide SecretAliases, UsedElsewhere, TokenUses, Countable, ResourceOf, TokenReference;
  }

  /** Ignoring more of the aliases that are there gives another digest. */
  lemma MoreIgnored(spec: Fields, i: set<string>, j: set<string>, alias: string)
    requires NormalSpec(spec, i).Ok? && SecretAliases(spec).Ok?
    requires alias in SecretAliases(spec).value && alias in i && alias !in j
    ensures NormalSpec(spec, j) != NormalSpec(spec, i)
  {
    DigestKeeps(spec, i);
    if NormalSpec(spec, j).Ok? {
      DigestKeeps(spec, j);
      assert alias in KeptOf(spec, j).aliases && alias !in KeptOf(spec, i).aliases;
    }
    hide NormalSpec;
  }

  /** The facts are as wanted in this environment, and the token's reference is in order. */
  predicate AsWanted(s: Service, fits: Fields -> bool, desired: map<string, string>, secretName: string, projectNumber: string) {
    && OneContainer(s.spec)
    && ServiceEnvironment(s, fits).Ok?
    && TokenAlias(s.spec, ServiceEnvironment(s, fits).value, secretName, projectNumber).Ok?
    && forall name | name in FACTS_FIELDS :: FactsSet(ServiceEnvironment(s, fits).value, desired, name)
  }

  lemma AfterExactly(s: Service, fits: Fields -> bool, desired: map<string, string>, secretName: string,
                     projectNumber: string, b: Baseline)
    requires AsWanted(s, fits, desired, secretName, projectNumber)
    requires TrafficDigest(s.specTraffic, Some(s.created)) == Ok(b.specTraffic)
    requires TrafficDigest(s.statusTraffic, None) == Ok(b.statusTraffic)
    ensures var alias := TokenAlias(s.spec, ServiceEnvironment(s, fits).value, secretName, projectNumber).value;
      VerifyAfter(s, fits, desired, secretName, projectNumber, b) == None
      <==> NormalSpec(s.spec, TokenIgnored(alias)) == Ok(b.template)
  {
    hide NormalSpec, TokenAlias, TrafficDigest, ServiceEnvironment, FactsSet;
  }

  /**
   * A service that already is as wanted passes its own check, exactly unless one spare alias of the wanted secret
   * stands unused beside the token's: the baseline then ignores that alias, and the check afterwards does not.
   */
  lemma UnchangedAcceptedExactly(s: Service, fits: Fields -> bool, desired: map<string, string>, secretName: string,
                                 projectNumber: string)
    requires VerifyBefore(s, fits, secretName, projectNumber).Ok?
    requires AsWanted(s, fits, desired, secretName, projectNumber)
    ensures SecretAliases(s.spec).Ok?
    ensures var alias := TokenAlias(s.spec, ServiceEnvironment(s, fits).value, secretName, projectNumber).value;
      VerifyAfter(s, fits, desired, secretName, projectNumber,
                  VerifyBefore(s, fits, secretName, projectNumber).value) == None
      <==> |Spare(s.spec, alias, ResourceOf(projectNumber, secretName))| != 1
  {
    BeforeParts(s, fits, secretName, projectNumber);
    var b := VerifyBefore(s, fits, secretName, projectNumber).value;
    var environment := ServiceEnvironment(s, fits).value;
    var alias := TokenAlias(s.spec, environment, secretName, projectNumber).value;
    hide *;
    AfterExactly(s, fits, desired, secretName, projectNumber, b);
    SpareDecides(s.spec, environment, secretName, projectNumber, alias, b.template);
  }

  lemma SpareDecides(spec: Fields, environment: Fields, secretName: string, projectNumber: string, alias: Option<string>,
                     template: Fields)
    requires OneContainer(spec) && TokenAlias(spec, environment, secretName, projectNumber) == Ok(alias)
    requires BaselineIgnored(spec, environment, ResourceOf(projectNumber, secretName)).Ok?
    requires NormalSpec(spec, BaselineIgnored(spec, environment, ResourceOf(projectNumber, secretName)).value) == Ok(template)
    ensures SecretAliases(spec).Ok?
    ensures NormalSpec(spec, TokenIgnored(alias)) == Ok(template)
       <==> |Spare(spec, alias, ResourceOf(projectNumber, secretName))| != 1
  {
    IgnoredAround(spec, environment, secretName, projectNumber);
    var spare := Spare(spec, alias, ResourceOf(projectNumber, secretName));
    assert forall x | x in spare :: x in SecretAliases(spec).value && x !in TokenIgnored(alias);
    hide NormalSpec, TokenAlias, BaselineIgnored, Spare, SecretAliases, TokenIgnored;
    if |spare| == 1 {
      assert spare != {};
      var x :| x in spare;
      MoreIgnored(spec, TokenIgnored(alias) + spare, TokenIgnored(alias), x);
    } else {
      assert TokenIgnored(alias) + {} == TokenIgnored(alias);
    }
  }

  // ----- the order of the variables does not matter -----

  function NamesOf(rows: seq<Json>): (names: seq<string>)
    ensures |names| == |rows| && forall i | 0 <= i < |rows| :: names[i] == NameOf(rows[i])
  {
    seq(|rows|, i requires 0 <= i < |rows| => NameOf(rows[i]))
  }

  predicate DistinctNames(rows: seq<Json>) {
    forall i, j | 0 <= i < j < |rows| :: NameOf(rows[i]) != NameOf(rows[j])
  }

  /** A name below the first of an ascending list is below all of it. */
  lemma BelowAll(name: string, names: seq<string>)
    requires StrictlySorted(names) && (names != [] ==> Le(name, names[0]))
    ensures forall other | other in names :: Le(name, other)
  {
    forall i | 0 <= i < |names| ensures Le(name, names[i]) {
      if i > 0 {
        LeTransitive(name, names[0], names[i]);
      }
    }
  }

  lemma PrependSorted(name: string, names: seq<string>)
    requires StrictlySorted(names) && name !in names && forall other | other in names :: Le(name, other)
    ensures StrictlySorted([name] + names)
  {
    var all := [name] + names;
    forall i, j | 0 <= i < j < |all| ensures all[i] != all[j] && Le(all[i], all[j]) {
      assert all[j] == names[j - 1];
      assert i > 0 ==> all[i] == names[i - 1];
    }
  }

  lemma {:induction false} InsertSorts(row: Json, rows: seq<Json>)
    requires StrictlySorted(NamesOf(rows)) && NameOf(row) !in NamesOf(rows)
    ensures StrictlySorted(NamesOf(Insert(row, rows)))
    ensures forall name :: name in NamesOf(Insert(row, rows)) <==> name == NameOf(row) || name in NamesOf(rows)
  {
    hide NameOf, Le;
    var names := NamesOf(rows);
    if rows == [] || Le(NameOf(row), NameOf(rows[0])) {
      BelowAll(NameOf(row), names);
      PrependSorted(NameOf(row), names);
      assert NamesOf([row] + rows) == [NameOf(row)] + names;
    } else {
      assert NamesOf(rows[1..]) == names[1..];
      InsertSorts(row, rows[1..]);
      LeTotal(NameOf(row), names[0]);
      var rest := Insert(row, rows[1..]);
      assert NamesOf([rows[0]] + rest) == [names[0]] + NamesOf(rest);
      hide StrictlySorted, Insert, NamesOf;
      InsertedSorts(NameOf(row), names, NamesOf(rest));
    }
  }

  lemma InsertedSorts(name: string, names: seq<string>, rest: seq<string>)
    requires names != [] && StrictlySorted(names) && StrictlySorted(rest) && name !in names && Le(names[0], name)
    requires forall other :: other in rest <==> other == name || other in names[1..]
    ensures StrictlySorted([names[0]] + rest)
    ensures forall other :: other in [names[0]] + rest <==> other == name || other in names
  {
    hide Le;
    assert names == [names[0]] + names[1..];
    assert forall i | 0 <= i < |names| - 1 :: names[1..][i] == names[i + 1];
    PrependSorted(names[0], rest);
  }

  lemma {:induction false} SortSorts(rows: seq<Json>)
    requires DistinctNames(rows)
    ensures StrictlySorted(NamesOf(SortedRows(rows)))
    ensures forall name :: name in NamesOf(SortedRows(rows)) <==> name in NamesOf(rows)
  {
    hide NameOf, StrictlySorted;
    if rows == [] {
      assert StrictlySorted(NamesOf(SortedRows(rows))) by { NothingSorted(); }
    } else {
      DistinctTail(rows);
      SortSorts(rows[1..]);
      hide NamesOf, DistinctNames;
      InsertSorts(rows[0], SortedRows(rows[1..]));
    }
  }

  lemma DistinctTail(rows: seq<Json>)
    requires DistinctNames(rows) && rows != []
    ensures DistinctNames(rows[1..]) && NameOf(rows[0]) !in NamesOf(rows[1..])
    ensures NamesOf(rows) == [NameOf(rows[0])] + NamesOf(rows[1..])
  {
    hide NameOf;
    assert forall i | 0 <= i < |rows| - 1 :: rows[1..][i] == rows[i + 1];
  }

  lemma NothingSorted()
    ensures StrictlySorted([])
  {
  }

  /** Rows with distinct names have one sorted list. */
  lemma SameSorted(a: seq<Json>, b: seq<Json>)
    requires DistinctNames(a) && DistinctNames(b) && forall row :: row in a <==> row in b
    ensures SortedRows(a) == SortedRows(b)
  {
    hide NameOf, StrictlySorted;
    SortSorts(a);
    SortSorts(b);
    SortKeeps(a);
    SortKeeps(b);
    var p, q := SortedRows(a), SortedRows(b);
    forall name ensures name in NamesOf(a) <==> name in NamesOf(b) {
      NameInRows(a, name);
      NameInRows(b, name);
    }
    SortedUnique(NamesOf(p), NamesOf(q));
    forall i | 0 <= i < |p| ensures p[i] == q[i] {
      assert NamesOf(p)[i] == NamesOf(q)[i];
      assert p[i] in a && q[i] in a;
      OneRowPerName(a, p[i], q[i]);
    }
    assert |p| == |NamesOf(p)| == |NamesOf(q)| == |q|;
  }

  lemma NameInRows(rows: seq<Json>, name: string)
    ensures name in NamesOf(rows) <==> exists row :: row in rows && NameOf(row) == name
  {
    hide NameOf;
    if name in NamesOf(rows) {
      var i :| 0 <= i < |rows| && NamesOf(rows)[i] == name;
      assert rows[i] in rows;
    }
    if row :| row in rows && NameOf(row) == name {
      var i :| 0 <= i < |rows| && rows[i] == row;
      assert NamesOf(rows)[i] == name;
    }
  }

  lemma OneRowPerName(rows: seq<Json>, x: Json, y: Json)
    requires DistinctNames(rows) && x in rows && y in rows && NameOf(x) == NameOf(y)
    ensures x == y
  {
    hide NameOf;
    var i :| 0 <= i < |rows| && rows[i] == x;
    var j :| 0 <= j < |rows| && rows[j] == y;
    assert !(i < j) && !(j < i);
  }

  lemma {:induction false} EnvironmentDistinct(rows: seq<Json>)
    requires EnvironmentOf(rows).Ok?
    ensures DistinctNames(rows)
  {
    hide NameOf, Named;
    if rows != [] {
      var init, last := rows[..|rows| - 1], rows[|rows| - 1];
      EnvironmentDistinct(init);
      EnvironmentIs(init);
      forall i, j | 0 <= i < j < |rows| ensures NameOf(rows[i]) != NameOf(rows[j]) {
        assert rows[i] == init[i];
        if j < |init| {
          assert rows[j] == init[j];
        } else {
          assert init[i] in init;
        }
      }
    }
  }

  lemma {:induction false} NamedRowsOk(rows: seq<Json>)
    requires DistinctNames(rows) && forall row | row in rows :: Named(row)
    ensures EnvironmentOf(rows).Ok?
  {
    hide Named, NameOf;
    if rows != [] {
      var init, last := rows[..|rows| - 1], rows[|rows| - 1];
      assert forall row | row in init :: row in rows;
      assert last in rows;
      NamedRowsOk(init);
      EnvironmentIs(init);
    }
  }

  lemma {:induction false} FilterDistinct(rows: seq<Json>)
    requires DistinctNames(rows)
    ensures DistinctNames(UnrelatedRows(rows))
  {
    hide NameOf, Unrelated;
    if rows != [] {
      var rest := UnrelatedRows(rows[1..]);
      assert forall i | 0 <= i < |rows| - 1 :: rows[1..][i] == rows[i + 1];
      FilterDistinct(rows[1..]);
      FilterKeeps(rows[1..]);
      forall j | 0 <= j < |rest| ensures NameOf(rows[0]) != NameOf(rest[j]) {
        assert rest[j] in rows[1..];
        var k :| 0 <= k < |rows| - 1 && rows[1..][k] == rest[j];
        assert rows[k + 1] == rest[j];
      }
    }
  }

  lemma {:induction false} EnvironmentRows(a: seq<Json>, b: seq<Json>)
    requires EnvironmentOf(a).Ok? && EnvironmentOf(a) == EnvironmentOf(b)
    ensures forall row :: row in a <==> row in b
  {
    EnvironmentIs(a);
    EnvironmentIs(b);
    hide NameOf, Named, EnvironmentOf;
  }

  function WithEnv(spec: Fields, rows: seq<Json>): Fields
    requires Template(spec).Obj? && OneContainer(spec)
  {
    var container := Obj(Container(spec)["env" := List(rows)]);
    var templateSpec := Obj(Field(Template(spec), "spec").fields["containers" := List([container])]);
    spec["template" := Obj(Template(spec).fields["spec" := templateSpec])]
  }

  /** The template spec with these rows, normalised. */
  function NormalRows(spec: Fields, rows: seq<Json>): Json
    requires Template(spec).Obj? && OneContainer(spec)
  {
    var container := Obj(Container(spec)["env" := List(SortedRows(UnrelatedRows(rows)))]);
    Obj(Field(Template(spec), "spec").fields["containers" := List([container])])
  }

  lemma EnvNormal(spec: Fields, rows: seq<Json>, ignored: set<string>)
    requires Template(spec).Obj? && OneContainer(spec)
    ensures var whole := WithEnv(spec, rows);
      && Template(whole).Obj?
      && Template(whole).fields - {"spec"} == Template(spec).fields - {"spec"}
      && var clean := CleanMetadata(Template(whole).fields, ignored);
         NormalSpec(whole, ignored)
         == if clean.Err? then Err(clean.error)
            else Ok(spec["template" := Obj(clean.value["spec" := NormalRows(spec, rows)])])
  {
    hide CleanMetadata, SortedRows, UnrelatedRows;
    var whole := WithEnv(spec, rows);
    assert Container(whole) == Container(spec)["env" := List(rows)];
    assert EnvRows(whole) == List(rows);
    assert Container(whole)["env" := List(SortedRows(UnrelatedRows(rows)))]
        == Container(spec)["env" := List(SortedRows(UnrelatedRows(rows)))];
    assert Field(Template(whole), "spec").fields["containers" := List([Obj(Container(spec)["env" := List(SortedRows(UnrelatedRows(rows)))])])]
        == NormalRows(spec, rows).fields;
    var clean := CleanMetadata(Template(whole).fields, ignored);
    if clean.Ok? {
      var template := Obj(clean.value["spec" := NormalRows(spec, rows)]);
      assert whole["template" := template] == spec["template" := template];
    }
  }

  /** Cleaning the metadata neither reads nor changes the rest of the template. */
  lemma MetadataAlone(a: Fields, b: Fields, ignored: set<string>, templateSpec: Json)
    requires a - {"spec"} == b - {"spec"}
    ensures var p, q := CleanMetadata(a, ignored), CleanMetadata(b, ignored);
      if p.Err? then q == Err(p.error) else q.Ok? && p.value["spec" := templateSpec] == q.value["spec" := templateSpec]
  {
    hide CleanLabels, CleanAnnotations;
    Same(a, b, "spec", "metadata");
    SetSame(a, b, "spec", templateSpec);
    var p, q := CleanMetadata(a, ignored), CleanMetadata(b, ignored);
    if p.Ok? && Get(a, "metadata").Obj? {
      SetSpec(a, b, Get(a, "metadata"), p, templateSpec, ignored);
    }
  }

  lemma SetSame(a: Fields, b: Fields, key: string, value: Json)
    requires a - {key} == b - {key}
    ensures a[key := value] == b[key := value]
  {
    var p, q := a[key := value], b[key := value];
    forall other ensures other in p <==> other in q {
      if other != key {
        Same(a, b, key, other);
      }
    }
    forall other | other in p ensures p[other] == q[other] {
      if other != key {
        Same(a, b, key, other);
      }
    }
    assert p == q;
  }

  lemma SetSpec(a: Fields, b: Fields, metadata: Json, p: Result<Fields, SyncError>, templateSpec: Json, ignored: set<string>)
    requires a["spec" := templateSpec] == b["spec" := templateSpec]
    requires metadata.Obj? && Get(a, "metadata") == metadata && Get(b, "metadata") == metadata
    requires p == CleanMetadata(a, ignored) && p.Ok?
    ensures CleanMetadata(b, ignored).Ok?
    ensures p.value["spec" := templateSpec] == CleanMetadata(b, ignored).value["spec" := templateSpec]
  {
    hide CleanLabels, CleanAnnotations;
    var clean := CleanAnnotations(CleanLabels(metadata.fields - {"name"}).value, ignored).value;
    var m, n := a["metadata" := Obj(clean)], b["metadata" := Obj(clean)];
    assert m["spec" := templateSpec] == a["spec" := templateSpec]["metadata" := Obj(clean)];
    assert n["spec" := templateSpec] == b["spec" := templateSpec]["metadata" := Obj(clean)];
    assert (m - {"metadata"})["spec" := templateSpec] == m["spec" := templateSpec] - {"metadata"};
    assert (n - {"metadata"})["spec" := templateSpec] == n["spec" := templateSpec] - {"metadata"};
  }

  /** The same variables in another order give the same digest. */
  lemma DigestIgnoresRowOrder(spec: Fields, a: seq<Json>, b: seq<Json>, ignored: set<string>)
    requires Template(spec).Obj? && OneContainer(spec)
    requires EnvironmentOf(a).Ok? && EnvironmentOf(a) == EnvironmentOf(b)
    ensures NormalSpec(WithEnv(spec, a), ignored) == NormalSpec(WithEnv(spec, b), ignored)
  {
    SameRows(a, b);
    EnvNormal(spec, a, ignored);
    EnvNormal(spec, b, ignored);
    assert NormalRows(spec, a) == NormalRows(spec, b);
    hide *;
    MetadataAlone(Template(WithEnv(spec, a)).fields, Template(WithEnv(spec, b)).fields, ignored, NormalRows(spec, a));
  }

  lemma SameRows(a: seq<Json>, b: seq<Json>)
    requires EnvironmentOf(a).Ok? && EnvironmentOf(a) == EnvironmentOf(b)
    ensures SortedRows(UnrelatedRows(a)) == SortedRows(UnrelatedRows(b))
  {
    EnvironmentDistinct(a);
    EnvironmentDistinct(b);
    EnvironmentRows(a, b);
    FilterDistinct(a);
    FilterDistinct(b);
    FilterKeeps(a);
    FilterKeeps(b);
    hide *;
    SameSorted(UnrelatedRows(a), UnrelatedRows(b));
  }
}
