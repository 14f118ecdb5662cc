/**
 * Which changes the check accepts, exactly: a normalised spec is made of what must be kept and of nothing else, so
 * what the client stamps on its own, or an empty label or annotation map, never refuses an update.
 */
module ConfigAcceptance {
  import opened Wrappers
  import opened Ordering
  import opened Text
  import opened Digits
  import opened Splitting
  import opened ConfigSync

  // ----- a normalised spec, from its kept parts -----

  /** Maps that are there but null; they are neither dropped nor filled in. */
  datatype Nulls = Nulls(metadata: bool, labels: bool, annotations: bool)

  predicate IsNull(fields: Fields, key: string) {
    key in fields && fields[key].Null?
  }

  function NullsOf(spec: Fields): Nulls
    requires Template(spec).Obj?
  {
    var template := Template(spec).fields;
    var metadata := FieldsOf(Get(template, "metadata"));
    Nulls(IsNull(template, "metadata"), IsNull(metadata, "labels"), IsNull(metadata, "annotations"))
  }

  /** One field: null, dropped when empty, or a map. */
  function Part(key: string, isNull: bool, fields: Fields): Fields {
    if isNull then map[key := Null] else if fields == map[] then map[] else map[key := Obj(fields)]
  }

  function AnnotationFields(annotations: Fields, aliases: Aliases): Fields {
    if aliases == map[] then annotations else annotations[SECRETS := Str(PrintAliases(aliases))]
  }

  function MetadataFields(metadata: Fields, labels: Fields, annotations: Fields, noLabels: bool, noAnnotations: bool)
    : Fields
  {
    metadata + Part("labels", noLabels, labels) + Part("annotations", noAnnotations, annotations)
  }

  lemma SetIsAdd(fields: Fields, key: string, value: Json)
    ensures (fields - {key}) + map[key := value] == fields[key := value]
  {
  }

  lemma PartAdded(fields: Fields, key: string, kept: Fields)
    ensures WithoutEmpty(fields[key := Obj(kept)], key) == (fields - {key}) + Part(key, false, kept)
  {
    var empty: Fields := map[];
    if kept == map[] {
      assert fields[key := Obj(kept)] - {key} == fields - {key};
      assert (fields - {key}) + empty == fields - {key};
    } else {
      SetIsAdd(fields, key, Obj(kept));
    }
  }

  lemma PartLeft(fields: Fields, key: string)
    requires Get(fields, key).Null?
    ensures fields == (fields - {key}) + Part(key, IsNull(fields, key), map[])
  {
    var empty: Fields := map[];
    if key in fields {
      SetIsAdd(fields, key, Null);
      assert fields[key := Null] == fields;
    } else {
      assert fields - {key} == fields && fields + empty == fields;
    }
  }

  lemma LabelsAre(metadata: Fields)
    ensures CleanLabels(metadata).Ok? <==> Get(metadata, "labels").Null? || Get(metadata, "labels").Obj?
    ensures CleanLabels(metadata).Ok? ==>
              CleanLabels(metadata).value
              == (metadata - {"labels"}) + Part("labels", IsNull(metadata, "labels"), KeptLabels(Obj(metadata)))
  {
    var labels := Get(metadata, "labels");
    if labels.Null? {
      PartLeft(metadata, "labels");
      assert KeptLabels(Obj(metadata)) == map[];
    } else if labels.Obj? {
      PartAdded(metadata, "labels", labels.fields - {NONCE});
    }
  }

  lemma SecretsAre(annotations: Fields, ignored: set<string>)
    ensures CleanSecrets(annotations, ignored).Ok? <==> AliasesIn(Obj(annotations)).Ok?
    ensures CleanSecrets(annotations, ignored).Ok? ==>
              CleanSecrets(annotations, ignored).value
              == AnnotationFields(annotations - {SECRETS}, AliasesIn(Obj(annotations)).value - ignored)
  {
    hide ParseAliases, PrintAliases;
    var nothing: Aliases := map[];
    assert nothing - ignored == nothing;
    if SECRETS !in annotations {
      assert annotations - {SECRETS} == annotations;
    } else if ParseAliases(annotations[SECRETS]).Ok? {
      var kept := ParseAliases(annotations[SECRETS]).value - ignored;
      if kept != map[] {
        assert (annotations - {SECRETS})[SECRETS := Str(PrintAliases(kept))] == annotations[SECRETS := Str(PrintAliases(kept))];
      }
    }
  }

  lemma AnnotationsAre(metadata: Fields, ignored: set<string>)
    ensures var annotations := Get(metadata, "annotations");
      CleanAnnotations(metadata, ignored).Ok? <==>
        annotations.Null? || (annotations.Obj? && AliasesIn(annotations).Ok?)
    ensures CleanAnnotations(metadata, ignored).Ok? ==>
              && AliasesIn(Get(metadata, "annotations")).Ok?
              && var aliases := AliasesIn(Get(metadata, "annotations")).value - ignored;
                 var kept := AnnotationFields(KeptAnnotations(Obj(metadata)), aliases);
                 CleanAnnotations(metadata, ignored).value
                 == (metadata - {"annotations"}) + Part("annotations", IsNull(metadata, "annotations"), kept)
  {
    hide ParseAliases, PrintAliases, CleanSecrets;
    var annotations := Get(metadata, "annotations");
    var nothing: Aliases := map[];
    assert nothing - ignored == nothing;
    if annotations.Null? {
      PartLeft(metadata, "annotations");
      assert KeptAnnotations(Obj(metadata)) == map[];
    } else if annotations.Obj? {
      var plain := annotations.fields - {CLIENT_NAME, CLIENT_VERSION};
      assert AliasesIn(Obj(plain)) == AliasesIn(annotations);
      assert plain - {SECRETS} == annotations.fields - {CLIENT_NAME, CLIENT_VERSION, SECRETS};
      SecretsAre(plain, ignored);
      if CleanSecrets(plain, ignored).Ok? {
        PartAdded(metadata, "annotations", CleanSecrets(plain, ignored).value);
      }
    }
  }

  /** What the metadata becomes, from what is kept of it. */
  function CleanFields(metadata: Json, aliases: Aliases): Fields {
    var fields := FieldsOf(metadata);
    MetadataFields(KeptMetadata(metadata), KeptLabels(metadata), AnnotationFields(KeptAnnotations(metadata), aliases),
                   IsNull(fields, "labels"), IsNull(fields, "annotations"))
  }

  /** Metadata, labels and annotations are maps, or null, or absent. */
  predicate Shaped(template: Fields) {
    var metadata := Get(template, "metadata");
    && (metadata.Null? || metadata.Obj?)
    && (Field(metadata, "labels").Null? || Field(metadata, "labels").Obj?)
    && (Field(metadata, "annotations").Null? || Field(metadata, "annotations").Obj?)
  }

  lemma PartsAdd(fields: Fields, labels: Fields, clean: Fields, l: Fields, a: Fields)
    requires labels == (fields - {"name"} - {"labels"}) + l && l.Keys <= {"labels"} && a.Keys <= {"annotations"}
    requires clean == (labels - {"annotations"}) + a
    ensures clean == (fields - {"name", "labels", "annotations"}) + l + a
  {
    assert (labels - {"annotations"}) == (fields - {"name", "labels", "annotations"}) + l;
  }

  lemma PartKeys(key: string, isNull: bool, fields: Fields)
    ensures Part(key, isNull, fields).Keys <= {key}
  {
  }

  lemma LabelledIs(fields: Fields, labelled: Fields, l: Fields)
    requires labelled == (fields - {"name"} - {"labels"}) + l && l.Keys <= {"labels"}
    ensures Get(labelled, "annotations") == Get(fields, "annotations")
    ensures IsNull(labelled, "annotations") == IsNull(fields, "annotations")
    ensures KeptAnnotations(Obj(labelled)) == KeptAnnotations(Obj(fields))
  {
    assert "annotations" in labelled <==> "annotations" in fields;
  }

  lemma NamedIs(fields: Fields)
    ensures Get(fields - {"name"}, "labels") == Get(fields, "labels")
    ensures IsNull(fields - {"name"}, "labels") == IsNull(fields, "labels")
    ensures KeptLabels(Obj(fields - {"name"})) == KeptLabels(Obj(fields))
  {
  }

  lemma MetadataIs(fields: Fields, ignored: set<string>)
    ensures var labelled := CleanLabels(fields - {"name"});
      && (labelled.Ok? && CleanAnnotations(labelled.value, ignored).Ok? <==>
            && (Get(fields, "labels").Null? || Get(fields, "labels").Obj?)
            && (Get(fields, "annotations").Null? || (Get(fields, "annotations").Obj? && AliasesIn(Get(fields, "annotations")).Ok?)))
      && (labelled.Ok? && CleanAnnotations(labelled.value, ignored).Ok? ==>
            && AliasesIn(Get(fields, "annotations")).Ok?
            && CleanAnnotations(labelled.value, ignored).value
               == CleanFields(Obj(fields), AliasesIn(Get(fields, "annotations")).value - ignored))
  {
    hide CleanLabels, CleanAnnotations, AliasesIn, KeptLabels, KeptAnnotations, AnnotationFields, Part;
    var named := fields - {"name"};
    NamedIs(fields);
    LabelsAre(named);
    if CleanLabels(named).Ok? {
      var labelled := CleanLabels(named).value;
      var l := Part("labels", IsNull(named, "labels"), KeptLabels(Obj(named)));
      PartKeys("labels", IsNull(named, "labels"), KeptLabels(Obj(named)));
      LabelledIs(fields, labelled, l);
      AnnotationsAre(labelled, ignored);
      if CleanAnnotations(labelled, ignored).Ok? {
        var kept := AnnotationFields(KeptAnnotations(Obj(fields)), AliasesIn(Get(fields, "annotations")).value - ignored);
        var a := Part("annotations", IsNull(fields, "annotations"), kept);
        PartKeys("annotations", IsNull(fields, "annotations"), kept);
        PartsAdd(fields, labelled, CleanAnnotations(labelled, ignored).value, l, a);
      }
    }
  }

  /** The normalised template without its spec, from what is kept. */
  lemma TemplateIs(template: Fields, ignored: set<string>)
    ensures var metadata := Get(template, "metadata");
      && (CleanMetadata(template, ignored).Ok? <==> Shaped(template) && AliasesIn(Field(metadata, "annotations")).Ok?)
      && (CleanMetadata(template, ignored).Ok? ==>
            CleanMetadata(template, ignored).value
            == (template - {"metadata"})
               + Part("metadata", IsNull(template, "metadata"),
                      CleanFields(metadata, AliasesIn(Field(metadata, "annotations")).value - ignored)))
  {
    hide CleanLabels, CleanAnnotations, ParseAliases, KeptLabels, KeptAnnotations, KeptMetadata, AnnotationFields;
    var metadata := Get(template, "metadata");
    if metadata.Null? {
      PartLeft(template, "metadata");
      NothingClean(metadata, ignored);
    } else if metadata.Obj? {
      MetadataIs(metadata.fields, ignored);
      var labelled := CleanLabels(metadata.fields - {"name"});
      if labelled.Ok? && CleanAnnotations(labelled.value, ignored).Ok? {
        PartAdded(template, "metadata", CleanAnnotations(labelled.value, ignored).value);
      }
    }
  }

  lemma NothingClean(metadata: Json, ignored: set<string>)
    requires metadata.Null?
    ensures var nothing: Aliases := map[];
      CleanFields(metadata, nothing - ignored) == map[]
  {
    var nothing: Aliases := map[];
    assert nothing - ignored == nothing;
  }

  /** A normalised spec, put together from what is kept, what is null, and the rows of the environment. */
  function Rebuilt(k: Kept, nulls: Nulls, rows: seq<Json>): Fields {
    var annotations := AnnotationFields(k.annotations, k.aliases);
    var metadata := MetadataFields(k.metadata, k.labels, annotations, nulls.labels, nulls.annotations);
    var templateSpec := Obj(k.templateSpec["containers" := List([Obj(k.container["env" := List(rows)])])]);
    k.spec["template" := Obj((k.template + Part("metadata", nulls.metadata, metadata))["spec" := templateSpec])]
  }

  /** What makes a spec normalisable. */
  predicate Normalisable(spec: Fields) {
    Digestible(spec) && Shaped(Template(spec).fields)
  }

  lemma SpecSet(template: Fields, part: Fields, templateSpec: Json)
    requires part.Keys <= {"metadata"}
    ensures ((template - {"metadata"}) + part)["spec" := templateSpec]
         == ((template - {"metadata", "spec"}) + part)["spec" := templateSpec]
  {
  }

  lemma KeySet(fields: Fields, key: string, value: Json)
    ensures (fields - {key})[key := value] == fields[key := value]
  {
  }

  lemma NormalIs(spec: Fields, ignored: set<string>)
    ensures NormalSpec(spec, ignored).Ok? <==> Normalisable(spec)
    ensures Normalisable(spec) ==>
              NormalSpec(spec, ignored).value
              == Rebuilt(KeptOf(spec, ignored), NullsOf(spec), SortedRows(UnrelatedRows(EnvRows(spec).items)))
  {
    if Template(spec).Obj? {
      TemplateIs(Template(spec).fields, ignored);
      if Normalisable(spec) {
        NormalUnfolds(spec, ignored);
      }
    }
    hide CleanMetadata, SortedRows, UnrelatedRows, Rebuilt, KeptOf, NullsOf, CleanFields, Part, ParseAliases;
  }

  lemma NormalUnfolds(spec: Fields, ignored: set<string>)
    requires Normalisable(spec) && CleanMetadata(Template(spec).fields, ignored).Ok?
    requires CleanMetadata(Template(spec).fields, ignored).value
          == (Template(spec).fields - {"metadata"})
             + Part("metadata", IsNull(Template(spec).fields, "metadata"),
                    CleanFields(Get(Template(spec).fields, "metadata"), SecretAliases(spec).value - ignored))
    ensures NormalSpec(spec, ignored)
         == Ok(Rebuilt(KeptOf(spec, ignored), NullsOf(spec), SortedRows(UnrelatedRows(EnvRows(spec).items))))
  {
    var k, nulls, rows := KeptOf(spec, ignored), NullsOf(spec), SortedRows(UnrelatedRows(EnvRows(spec).items));
    var template := Template(spec).fields;
    var metadata := CleanFields(Get(template, "metadata"), SecretAliases(spec).value - ignored);
    var part := Part("metadata", nulls.metadata, metadata);
    PartKeys("metadata", nulls.metadata, metadata);
    KeySet(Container(spec), "env", List(rows));
    var container := Obj(Container(spec)["env" := List(rows)]);
    KeySet(Field(Template(spec), "spec").fields, "containers", List([container]));
    var templateSpec := Obj(Field(Template(spec), "spec").fields["containers" := List([container])]);
    SpecSet(template, part, templateSpec);
    KeySet(spec, "template", Obj(((template - {"metadata"}) + part)["spec" := templateSpec]));
    hide CleanMetadata, SortedRows, UnrelatedRows, Part, KeptMetadata, KeptLabels, KeptAnnotations, AnnotationFields,
      MetadataFields, UnrelatedSet, SecretAliases;
    assert metadata == MetadataFields(k.metadata, k.labels, AnnotationFields(k.annotations, k.aliases),
                                      nulls.labels, nulls.annotations);
  }

  // ----- when two digests are equal -----

  lemma PartShows(key: string, isNull: bool, fields: Fields)
    ensures IsNull(Part(key, isNull, fields), key) == isNull
    ensures !isNull ==> FieldsOf(Get(Part(key, isNull, fields), key)) == fields
  {
  }

  lemma MetadataShows(metadata: Fields, labels: Fields, annotations: Fields, noLabels: bool, noAnnotations: bool)
    requires "labels" !in metadata && "annotations" !in metadata
    ensures var fields := MetadataFields(metadata, labels, annotations, noLabels, noAnnotations);
      IsNull(fields, "labels") == noLabels && IsNull(fields, "annotations") == noAnnotations
  {
    PartKeys("labels", noLabels, labels);
    PartKeys("annotations", noAnnotations, annotations);
    PartShows("labels", noLabels, labels);
    PartShows("annotations", noAnnotations, annotations);
    hide Part;
  }

  lemma TemplateShows(template: Fields, isNull: bool, metadata: Fields, templateSpec: Json)
    requires "metadata" !in template
    ensures var fields := (template + Part("metadata", isNull, metadata))["spec" := templateSpec];
      IsNull(fields, "metadata") == isNull && (!isNull ==> FieldsOf(Get(fields, "metadata")) == metadata)
      && (isNull ==> FieldsOf(Get(fields, "metadata")) == map[])
  {
    PartKeys("metadata", isNull, metadata);
    PartShows("metadata", isNull, metadata);
  }

  /** A normalised spec has the same nulls as the original. */
  lemma NullsShown(spec: Fields, ignored: set<string>, rows: seq<Json>)
    requires Normalisable(spec)
    ensures Template(Rebuilt(KeptOf(spec, ignored), NullsOf(spec), rows)).Obj?
    ensures NullsOf(Rebuilt(KeptOf(spec, ignored), NullsOf(spec), rows)) == NullsOf(spec)
  {
    var k, nulls := KeptOf(spec, ignored), NullsOf(spec);
    assert "labels" !in k.metadata && "annotations" !in k.metadata && "metadata" !in k.template;
    assert nulls.metadata ==> !nulls.labels && !nulls.annotations;
    hide KeptOf, Normalisable;
    RebuiltShows(k, nulls, rows);
  }

  lemma RebuiltShows(k: Kept, nulls: Nulls, rows: seq<Json>)
    requires "labels" !in k.metadata && "annotations" !in k.metadata && "metadata" !in k.template
    requires nulls.metadata ==> !nulls.labels && !nulls.annotations
    ensures Template(Rebuilt(k, nulls, rows)).Obj? && NullsOf(Rebuilt(k, nulls, rows)) == nulls
  {
    var annotations := AnnotationFields(k.annotations, k.aliases);
    var metadata := MetadataFields(k.metadata, k.labels, annotations, nulls.labels, nulls.annotations);
    MetadataShows(k.metadata, k.labels, annotations, nulls.labels, nulls.annotations);
    var templateSpec := Obj(k.templateSpec["containers" := List([Obj(k.container["env" := List(rows)])])]);
    TemplateShows(k.template, nulls.metadata, metadata, templateSpec);
    hide Part, AnnotationFields, MetadataFields;
  }

  lemma SameRelated(a: seq<Json>, b: seq<Json>)
    requires EnvironmentOf(a).Ok? && EnvironmentOf(b).Ok? && UnrelatedSet(a) == UnrelatedSet(b)
    ensures SortedRows(UnrelatedRows(a)) == SortedRows(UnrelatedRows(b))
  {
    EnvironmentDistinct(a);
    EnvironmentDistinct(b);
    FilterDistinct(a);
    FilterDistinct(b);
    FilterKeeps(a);
    FilterKeeps(b);
    assert forall row :: row in UnrelatedSet(a) <==> row in a && Unrelated(row);
    assert forall row :: row in UnrelatedSet(b) <==> row in b && Unrelated(row);
    hide *;
    SameSorted(UnrelatedRows(a), UnrelatedRows(b));
  }

  /**
   * Two specs whose variables are named have the same digest exactly when all that must be kept is the same, apart
   * from the ignored aliases, and the same maps are null.
   */
  lemma DigestExactly(a: Fields, i: set<string>, b: Fields, j: set<string>)
    requires Normalisable(a) && Normalisable(b)
    requires EnvironmentOf(EnvRows(a).items).Ok? && EnvironmentOf(EnvRows(b).items).Ok?
    ensures NormalSpec(a, i) == NormalSpec(b, j) <==> KeptOf(a, i) == KeptOf(b, j) && NullsOf(a) == NullsOf(b)
  {
    NormalIs(a, i);
    NormalIs(b, j);
    DigestKeeps(a, i);
    DigestKeeps(b, j);
    NullsShown(a, i, SortedRows(UnrelatedRows(EnvRows(a).items)));
    NullsShown(b, j, SortedRows(UnrelatedRows(EnvRows(b).items)));
    if KeptOf(a, i) == KeptOf(b, j) {
      SameRelated(EnvRows(a).items, EnvRows(b).items);
    }
    hide NormalSpec, KeptOf, NullsOf, Rebuilt, EnvironmentOf, SortedRows, UnrelatedRows, Normalisable;
  }

  // ----- which changes are accepted -----

  /**
   * A change is accepted exactly when the environment afterwards is in order, the token's reference resolves, the
   * six fields hold what was asked for, and everything that must be kept is as before: the parts of the spec, the
   * unrelated variables, the aliases but the ignored ones, and the resolved traffic.
   */
  lemma AcceptedExactly(before: Service, after: Service, fits: Fields -> bool, desired: map<string, string>,
                        secretName: string, projectNumber: string, i: set<string>)
    requires VerifyBefore(before, fits, secretName, projectNumber).Ok?
    requires ServiceEnvironment(before, fits).Ok?
    requires OneContainer(before.spec)
    requires BaselineIgnored(before.spec, ServiceEnvironment(before, fits).value, ResourceOf(projectNumber, secretName)) == Ok(i)
    ensures Normalisable(before.spec)
    ensures VerifyAfter(after, fits, desired, secretName, projectNumber,
                        VerifyBefore(before, fits, secretName, projectNumber).value) == None
            <==>
              && ServiceEnvironment(after, fits).Ok? && OneContainer(after.spec)
              && var n := ServiceEnvironment(after, fits).value;
                 var alias := TokenAlias(after.spec, n, secretName, projectNumber);
                 && alias.Ok?
                 && (forall name | name in FACTS_FIELDS ::
                       && name in n && n[name].Obj? && "valueFrom" !in n[name].fields
                       && Get(n[name].fields, "value") == if name in desired then Str(desired[name]) else Null)
                 && Normalisable(after.spec)
                 && KeptOf(before.spec, i) == KeptOf(after.spec, TokenIgnored(alias.value))
                 && NullsOf(before.spec) == NullsOf(after.spec)
                 && TrafficDigest(before.specTraffic, Some(before.created)) == TrafficDigest(after.specTraffic, Some(after.created))
                 && TrafficDigest(before.statusTraffic, None) == TrafficDigest(after.statusTraffic, None)
  {
    BeforeParts(before, fits, secretName, projectNumber);
    var b := VerifyBefore(before, fits, secretName, projectNumber).value;
    NormalIs(before.spec, i);
    AfterIs(after, fits, desired, secretName, projectNumber, b);
    EnvironmentRead(after, fits);
    FactsExactly(desired);
    hide *;
    if ServiceEnvironment(after, fits).Ok? && OneContainer(after.spec)
       && TokenAlias(after.spec, ServiceEnvironment(after, fits).value, secretName, projectNumber).Ok? {
      var j := TokenIgnored(TokenAlias(after.spec, ServiceEnvironment(after, fits).value, secretName, projectNumber).value);
      NormalIs(after.spec, j);
      if Normalisable(after.spec) {
        DigestExactly(before.spec, i, after.spec, j);
      }
    }
  }

  lemma FactsExactly(desired: map<string, string>)
    ensures forall n: Fields, name: string ::
              FactsSet(n, desired, name) <==>
                && name in n && n[name].Obj? && "valueFrom" !in n[name].fields
                && Get(n[name].fields, "value") == if name in desired then Str(desired[name]) else Null
  {
  }

  /** The environment is in order exactly when its one container lists named variables, none twice, that fit the target. */
  lemma EnvironmentExactly(s: Service, fits: Fields -> bool, environment: Fields)
    ensures ServiceEnvironment(s, fits) == Ok(environment) <==>
              && OneContainer(s.spec) && EnvRows(s.spec).List?
              && DistinctNames(EnvRows(s.spec).items) && ByName(environment, EnvRows(s.spec).items) && fits(environment)
  {
    EnvironmentFound(s, fits);
    if OneContainer(s.spec) && EnvRows(s.spec).List? {
      var rows := EnvRows(s.spec).items;
      if EnvironmentOf(rows).Ok? {
        EnvironmentDistinct(rows);
        EnvironmentIs(rows);
        if ByName(environment, rows) {
          OneByName(environment, EnvironmentOf(rows).value, rows);
        }
      } else if DistinctNames(rows) && ByName(environment, rows) {
        AllNamed(environment, rows);
        NamedRowsOk(rows);
      }
    }
    hide *;
  }

  lemma EnvironmentFound(s: Service, fits: Fields -> bool)
    ensures ServiceEnvironment(s, fits)
         == if !OneContainer(s.spec) || !EnvRows(s.spec).List? then Err(ShapeInvalid)
            else
              var environment := EnvironmentOf(EnvRows(s.spec).items);
              if environment.Err? || fits(environment.value) then environment else Err(TargetMismatch)
  {
    hide EnvironmentOf, Containers, EnvRows;
  }

  lemma AllNamed(environment: Fields, rows: seq<Json>)
    requires ByName(environment, rows)
    ensures forall row | row in rows :: Named(row)
  {
    hide Named, NameOf;
  }

  lemma OneByName(a: Fields, b: Fields, rows: seq<Json>)
    requires ByName(a, rows) && ByName(b, rows)
    ensures a == b
  {
    hide Named, NameOf;
    forall name | name in a ensures name in b && b[name] == a[name] {
      assert a[name] in rows;
    }
    forall name | name in b ensures name in a {
      assert b[name] in rows;
    }
  }

  lemma EnvironmentRead(s: Service, fits: Fields -> bool)
    ensures ServiceEnvironment(s, fits).Ok? ==>
              && OneContainer(s.spec) && EnvRows(s.spec).List?
              && EnvironmentOf(EnvRows(s.spec).items) == ServiceEnvironment(s, fits)
  {
    hide EnvironmentOf, Containers, EnvRows;
  }

  lemma AfterIs(s: Service, fits: Fields -> bool, desired: map<string, string>, secretName: string,
                projectNumber: string, b: Baseline)
    ensures VerifyAfter(s, fits, desired, secretName, projectNumber, b) == None <==>
              && ServiceEnvironment(s, fits).Ok? && OneContainer(s.spec)
              && var n := ServiceEnvironment(s, fits).value;
                 var alias := TokenAlias(s.spec, n, secretName, projectNumber);
                 && alias.Ok?
                 && (forall name | name in FACTS_FIELDS :: FactsSet(n, desired, name))
                 && NormalSpec(s.spec, TokenIgnored(alias.value)) == Ok(b.template)
                 && TrafficDigest(s.specTraffic, Some(s.created)) == Ok(b.specTraffic)
                 && TrafficDigest(s.statusTraffic, None) == Ok(b.statusTraffic)
  {
    EnvironmentRead(s, fits);
    hide NormalSpec, TokenAlias, TrafficDigest, ServiceEnvironment, FactsSet, EnvRows, Containers;
  }

  // ----- what the client stamps -----

  /** What the client writes at every update: the revision's name, a nonce label, and its own name and version. */
  datatype Stamps = Stamps(name: Json, nonce: Json, clientName: Json, clientVersion: Json)

  function StampedMetadata(metadata: Fields, stamps: Stamps): Fields {
    var labels := FieldsOf(Get(metadata, "labels"))[NONCE := stamps.nonce];
    var annotations := FieldsOf(Get(metadata, "annotations"));
    var stamped := annotations[CLIENT_NAME := stamps.clientName][CLIENT_VERSION := stamps.clientVersion];
    metadata["name" := stamps.name]["labels" := Obj(labels)]["annotations" := Obj(stamped)]
  }

  /** The spec after the client has stamped it, whether or not there were labels or annotations before. */
  function Stamped(spec: Fields, stamps: Stamps): Fields
    requires Template(spec).Obj?
  {
    var template := Template(spec).fields;
    var metadata := StampedMetadata(FieldsOf(Get(template, "metadata")), stamps);
    spec["template" := Obj(template["metadata" := Obj(metadata)])]
  }

  /** Metadata with fields, or with none. */
  predicate ShowsAs(metadata: Json, fields: Fields) {
    metadata == Obj(fields) || (metadata.Null? && fields == map[])
  }

  lemma StampedKeeps(metadata: Fields, stamps: Stamps)
    requires !IsNull(metadata, "labels") && !IsNull(metadata, "annotations")
    requires (Get(metadata, "labels").Null? || Get(metadata, "labels").Obj?)
    requires (Get(metadata, "annotations").Null? || Get(metadata, "annotations").Obj?)
    ensures var after := StampedMetadata(metadata, stamps);
      && KeptMetadata(Obj(after)) == KeptMetadata(Obj(metadata))
      && KeptLabels(Obj(after)) == KeptLabels(Obj(metadata))
      && KeptAnnotations(Obj(after)) == KeptAnnotations(Obj(metadata))
      && AliasesIn(Get(after, "annotations")) == AliasesIn(Get(metadata, "annotations"))
      && Get(after, "labels").Obj? && Get(after, "annotations").Obj?
      && !IsNull(after, "labels") && !IsNull(after, "annotations")
  {
    hide ParseAliases;
  }

  lemma AsFields(metadata: Json, fields: Fields)
    requires ShowsAs(metadata, fields)
    ensures KeptMetadata(metadata) == KeptMetadata(Obj(fields)) && KeptLabels(metadata) == KeptLabels(Obj(fields))
    ensures KeptAnnotations(metadata) == KeptAnnotations(Obj(fields))
    ensures AliasesIn(Field(metadata, "annotations")) == AliasesIn(Get(fields, "annotations"))
    ensures Field(metadata, "labels") == Get(fields, "labels") && Field(metadata, "annotations") == Get(fields, "annotations")
  {
    hide ParseAliases;
  }

  lemma OnlyMetadata(spec: Fields, after: Fields, metadata: Fields)
    requires Template(spec).Obj? && after == spec["template" := Obj(Template(spec).fields["metadata" := Obj(metadata)])]
    ensures Template(after).Obj? && MetadataOf(Template(after)) == Obj(metadata)
    ensures after - {"template"} == spec - {"template"}
    ensures Template(after).fields - {"metadata", "spec"} == Template(spec).fields - {"metadata", "spec"}
    ensures Field(Template(after), "spec") == Field(Template(spec), "spec")
    ensures OneContainer(after) == OneContainer(spec)
    ensures OneContainer(spec) ==> Container(after) == Container(spec) && EnvRows(after) == EnvRows(spec)
  {
  }

  /** Stamping alone never changes the digest. */
  lemma StampsIgnored(spec: Fields, stamps: Stamps, ignored: set<string>)
    requires Normalisable(spec) && NullsOf(spec) == Nulls(false, false, false)
    requires EnvironmentOf(EnvRows(spec).items).Ok?
    ensures Normalisable(Stamped(spec, stamps))
    ensures NormalSpec(Stamped(spec, stamps), ignored) == NormalSpec(spec, ignored)
  {
    var after := Stamped(spec, stamps);
    var metadata := FieldsOf(Get(Template(spec).fields, "metadata"));
    AsFields(Get(Template(spec).fields, "metadata"), metadata);
    StampedKeeps(metadata, stamps);
    OnlyMetadata(spec, after, StampedMetadata(metadata, stamps));
    StampedKept(spec, after, metadata, StampedMetadata(metadata, stamps), ignored);
    hide *;
    DigestExactly(spec, ignored, after, ignored);
  }

  lemma StampedKept(spec: Fields, after: Fields, before: Fields, metadata: Fields, ignored: set<string>)
    requires Normalisable(spec) && NullsOf(spec) == Nulls(false, false, false)
    requires before == FieldsOf(Get(Template(spec).fields, "metadata"))
    requires after == spec["template" := Obj(Template(spec).fields["metadata" := Obj(metadata)])]
    requires KeptMetadata(Obj(metadata)) == KeptMetadata(Obj(before)) && KeptLabels(Obj(metadata)) == KeptLabels(Obj(before))
    requires KeptAnnotations(Obj(metadata)) == KeptAnnotations(Obj(before))
    requires AliasesIn(Get(metadata, "annotations")) == AliasesIn(Get(before, "annotations"))
    requires Get(metadata, "labels").Obj? && Get(metadata, "annotations").Obj?
    ensures Normalisable(after) && NullsOf(after) == NullsOf(spec) && KeptOf(after, ignored) == KeptOf(spec, ignored)
    ensures EnvRows(after) == EnvRows(spec)
  {
    AsFields(Get(Template(spec).fields, "metadata"), before);
    OnlyMetadata(spec, after, metadata);
    hide AliasesIn, KeptMetadata, KeptLabels, KeptAnnotations, UnrelatedSet, EnvRows, OneContainer, Container;
  }

  // ----- the seven variables -----

  predicate OneOfSeven(name: string) {
    || name == "FIRSTRADE_ACCOUNT_FACTS_SYNC_ENABLED" || name == "FIRSTRADE_ACCOUNT_FACTS_SYNC_URL"
    || name == "FIRSTRADE_ACCOUNT_FACTS_TARGET_ID" || name == "FIRSTRADE_ACCOUNT_FACTS_SOURCE_BINDING_ID"
    || name == "FIRSTRADE_ACCOUNT_FACTS_ACCOUNT_KEY" || name == "FIRSTRADE_ACCOUNT_FACTS_ACCOUNT_SCOPE"
    || name == "FIRSTRADE_ACCOUNT_FACTS_SYNC_TOKEN"
  }

  lemma SevenExactly(name: string)
    ensures IsFacts(name) <==> OneOfSeven(name)
  {
  }

  /** Adding, changing, moving or dropping the seven variables alone never changes the digest. */
  lemma FactsIgnored(spec: Fields, a: seq<Json>, b: seq<Json>, ignored: set<string>)
    requires Template(spec).Obj? && OneContainer(spec)
    requires EnvironmentOf(a).Ok? && EnvironmentOf(b).Ok?
    requires forall row | !OneOfSeven(NameOf(row)) :: row in a <==> row in b
    ensures NormalSpec(WithEnv(spec, a), ignored) == NormalSpec(WithEnv(spec, b), ignored)
  {
    UnrelatedAlike(a, b);
    SameRelated(a, b);
    EnvNormal(spec, a, ignored);
    EnvNormal(spec, b, ignored);
    assert NormalRows(spec, a) == NormalRows(spec, b);
    hide *;
    MetadataAlone(Template(WithEnv(spec, a)).fields, Template(WithEnv(spec, b)).fields, ignored, NormalRows(spec, a));
  }

  lemma UnrelatedAlike(a: seq<Json>, b: seq<Json>)
    requires forall row | !OneOfSeven(NameOf(row)) :: row in a <==> row in b
    ensures UnrelatedSet(a) == UnrelatedSet(b)
  {
    forall name: string ensures IsFacts(name) <==> OneOfSeven(name) {
      SevenExactly(name);
    }
    hide IsFacts, OneOfSeven, NameOf;
    assert forall row :: row in UnrelatedSet(a) <==> row in UnrelatedSet(b);
  }

  // ----- traffic -----

  /**
   * The row sends its traffic to this revision: by name, or as the latest one where that is known and, if the row
   * also names a revision, is the one named. A tag is not empty.
   */
  predicate SendsTo(row: TrafficRow, latest: Option<string>, revision: string) {
    && revision != "" && row.tag != Some("")
    && (row.latest ==> latest == Some(revision) && (row.revision.None? || row.revision == Some(revision)))
    && (!row.latest ==> row.revision == Some(revision))
  }

  lemma RowExactly(row: TrafficRow, latest: Option<string>, revision: string)
    ensures CanonicalTraffic(row, latest) == Ok(CanonicalRow(revision, row.percent, row.tag)) <==> SendsTo(row, latest, revision)
    ensures CanonicalTraffic(row, latest).Ok? ==>
              CanonicalTraffic(row, latest) == Ok(CanonicalRow(CanonicalTraffic(row, latest).value.revision, row.percent, row.tag))
  {
  }

  /** Traffic is accepted exactly when every row is sent somewhere, and then it is the multiset of where and how much. */
  lemma {:induction false} TrafficExactly(rows: seq<TrafficRow>, latest: Option<string>, revisions: seq<string>)
    requires |revisions| == |rows|
    ensures (forall i | 0 <= i < |rows| :: SendsTo(rows[i], latest, revisions[i])) ==>
              TrafficDigest(rows, latest)
              == Ok(multiset(seq(|rows|, i requires 0 <= i < |rows| => CanonicalRow(revisions[i], rows[i].percent, rows[i].tag))))
  {
    hide SendsTo, CanonicalTraffic;
    if (forall i | 0 <= i < |rows| :: SendsTo(rows[i], latest, revisions[i])) && rows != [] {
      var n := |rows| - 1;
      assert SendsTo(rows[n], latest, revisions[n]);
      RowExactly(rows[n], latest, revisions[n]);
      TrafficExactly(rows[..n], latest, revisions[..n]);
      var all := seq(|rows|, i requires 0 <= i < |rows| => CanonicalRow(revisions[i], rows[i].percent, rows[i].tag));
      var init := seq(n, i requires 0 <= i < n => CanonicalRow(revisions[..n][i], rows[..n][i].percent, rows[..n][i].tag));
      assert all == init + [all[n]];
    }
  }

  /** A row that is sent nowhere fails the whole. */
  lemma {:induction false} TrafficFails(rows: seq<TrafficRow>, latest: Option<string>, i: nat)
    requires i < |rows| && forall revision :: !SendsTo(rows[i], latest, revision)
    ensures TrafficDigest(rows, latest) == Err(TrafficInvalid)
  {
    hide SendsTo;
    var n := |rows| - 1;
    if i == n {
      if CanonicalTraffic(rows[n], latest).Ok? {
        RowExactly(rows[n], latest, CanonicalTraffic(rows[n], latest).value.revision);
      }
      OnlyInvalid(rows[..n], latest);
    } else {
      TrafficFails(rows[..n], latest, i);
    }
  }

  lemma {:induction false} OnlyInvalid(rows: seq<TrafficRow>, latest: Option<string>)
    ensures TrafficDigest(rows, latest).Err? ==> TrafficDigest(rows, latest).error == TrafficInvalid
  {
    if rows != [] {
      OnlyInvalid(rows[..|rows| - 1], latest);
    }
  }

  // ----- the alias annotation -----

  /** One to 255 letters, digits, underscores or hyphens. */
  predicate Segment(s: string) {
    1 <= |s| <= 255
    && forall i | 0 <= i < |s| ::
         'a' <= s[i] <= 'z' || 'A' <= s[i] <= 'Z' || '0' <= s[i] <= '9' || s[i] == '_' || s[i] == '-'
  }

  function ResourceText(number: string, secret: string): string {
    "projects/" + number + "/secrets/" + secret
  }

  /** `alias:projects/<6 to 20 digits>/secrets/<name>`, with white space around it. */
  predicate EntryOf(entry: string, pre: string, alias: string, number: string, secret: string, post: string) {
    && Blank(pre) && Blank(post) && Segment(alias) && Segment(secret) && 6 <= |number| <= 20 && AllDigits(number)
    && entry == pre + (alias + ":" + ResourceText(number, secret)) + post
  }

  lemma ResourceMade(number: string, secret: string)
    requires Segment(secret) && 6 <= |number| <= 20 && AllDigits(number)
    ensures ResourceShape(ResourceText(number, secret))
  {
    var s, n := ResourceText(number, secret), |number|;
    assert s[..|PROJECTS|] == PROJECTS;
    assert s[|PROJECTS|..|PROJECTS| + n] == number;
    assert s[|PROJECTS| + n..|PROJECTS| + n + |IN_SECRETS|] == IN_SECRETS;
    assert s[|PROJECTS| + n + |IN_SECRETS|..] == secret;
    assert ResourceWith(s, n);
  }

  lemma ResourceCut(s: string) returns (number: string, secret: string)
    requires ResourceShape(s)
    ensures Segment(secret) && 6 <= |number| <= 20 && AllDigits(number) && s == ResourceText(number, secret)
  {
    var n :| 6 <= n <= 20 && ResourceWith(s, n);
    number, secret := s[|PROJECTS|..|PROJECTS| + n], s[|PROJECTS| + n + |IN_SECRETS|..];
    assert s == s[..|PROJECTS|] + s[|PROJECTS|..|PROJECTS| + n]
                + s[|PROJECTS| + n..|PROJECTS| + n + |IN_SECRETS|] + s[|PROJECTS| + n + |IN_SECRETS|..];
  }

  /** The trimmed entry is all that counts. */
  lemma SameStripped(before: Aliases, a: string, b: string)
    requires Strip(a) == Strip(b)
    ensures AliasEntry(before, a) == AliasEntry(before, b)
  {
    hide Strip, Split, Word, ResourceShape;
  }

  lemma EntryReads(before: Aliases, entry: string, pre: string, alias: string, number: string, secret: string, post: string)
    requires EntryOf(entry, pre, alias, number, secret, post) && alias !in before
    ensures AliasEntry(before, entry) == Ok(before[alias := ResourceText(number, secret)])
  {
    ResourceMade(number, secret);
    var resource := ResourceText(number, secret);
    var core := alias + ":" + resource;
    WordFree(alias);
    ResourceFree(resource);
    assert core[0] == alias[0] && core[|core| - 1] == resource[|resource| - 1];
    EntryReadsBack(before, alias, resource);
    StripAround(pre, core, post);
    StripKeeps(core);
    hide Strip, ResourceShape, AliasEntry, Space;
    SameStripped(before, entry, core);
  }

  lemma EntryCut(before: Aliases, entry: string)
    returns (pre: string, alias: string, number: string, secret: string, post: string)
    requires AliasEntry(before, entry).Ok?
    ensures EntryOf(entry, pre, alias, number, secret, post) && alias !in before
  {
    pre, post := StripCuts(entry);
    var parts := Split(Strip(entry), ':');
    JoinSplit(Strip(entry), ':');
    assert parts[1..] == [parts[1]];
    assert Strip(entry) == parts[0] + ":" + parts[1];
    alias := parts[0];
    number, secret := ResourceCut(parts[1]);
    hide Strip, Split, ResourceShape, Blank, AllDigits, ResourceText;
  }

  /** An entry of the alias annotation is accepted exactly in this form, with an alias not yet taken. */
  lemma AliasEntryExactly(before: Aliases, entry: string)
    ensures AliasEntry(before, entry).Ok? <==>
              exists pre, alias, number, secret, post ::
                EntryOf(entry, pre, alias, number, secret, post) && alias !in before
    ensures forall pre, alias, number, secret, post |
              EntryOf(entry, pre, alias, number, secret, post) && alias !in before ::
              AliasEntry(before, entry) == Ok(before[alias := ResourceText(number, secret)])
  {
    forall pre, alias, number, secret, post |
      EntryOf(entry, pre, alias, number, secret, post) && alias !in before
      ensures AliasEntry(before, entry) == Ok(before[alias := ResourceText(number, secret)])
    {
      EntryReads(before, entry, pre, alias, number, secret, post);
    }
    if AliasEntry(before, entry).Ok? {
      var pre, alias, number, secret, post := EntryCut(before, entry);
    }
    hide AliasEntry, EntryOf, ResourceText;
  }
}
