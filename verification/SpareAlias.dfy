/**
 * A service that is as wanted and that its own check refuses: the wanted secret has a second alias, which nothing
 * uses. Whatever the two aliases, the secret and the wanted facts are.
 */
module SpareAlias {
  import opened Wrappers
  import opened ConfigSync

  function FactsRow(name: string, desired: map<string, string>): Json {
    Obj(map["name" := Str(name), "value" := if name in desired then Str(desired[name]) else Null])
  }

  function TokenRow(alias: string): Json {
    var reference := Obj(map["name" := Str(alias), "key" := Str("latest")]);
    Obj(map["name" := Str(SYNC_TOKEN), "valueFrom" := Obj(map["secretKeyRef" := reference])])
  }

  /** Every fact as wanted, and the token from its secret. */
  function Rows(desired: map<string, string>, alias: string): seq<Json> {
    seq(|FACTS_FIELDS|, i requires 0 <= i < |FACTS_FIELDS| => FactsRow(FACTS_FIELDS[i], desired)) + [TokenRow(alias)]
  }

  function Twins(a: string, b: string, resource: string): (aliases: Aliases)
    ensures aliases != map[]
  {
    assert a in map[a := resource, b := resource];
    map[a := resource, b := resource]
  }

  function SpecWith(annotation: string, rows: seq<Json>): Fields {
    var metadata := Obj(map["annotations" := Obj(map[SECRETS := Str(annotation)])]);
    var templateSpec := Obj(map["containers" := List([Obj(map["env" := List(rows)])])]);
    map["template" := Obj(map["metadata" := metadata, "spec" := templateSpec])]
  }

  /** The token uses alias `a`; alias `b` of the same secret stands unused. */
  function TwinService(a: string, b: string, resource: string, desired: map<string, string>): Service {
    Service(SpecWith(PrintAliases(Twins(a, b, resource)), Rows(desired, a)), [], [], "")
  }

  // ----- its environment -----

  /** The names differ, as their lengths do. */
  lemma FactsNamesDiffer()
    ensures forall i, j | 0 <= i < j < |FACTS_FIELDS| :: |FACTS_FIELDS[i]| != |FACTS_FIELDS[j]|
    ensures forall i | 0 <= i < |FACTS_FIELDS| :: |FACTS_FIELDS[i]| != |SYNC_TOKEN|
    ensures forall i | 0 <= i < |FACTS_FIELDS| :: FACTS_FIELDS[i] != ""
  {
  }

  lemma RowNames(desired: map<string, string>, alias: string, i: nat)
    requires i <= |FACTS_FIELDS|
    ensures |Rows(desired, alias)| == |FACTS_FIELDS| + 1
    ensures Named(Rows(desired, alias)[i])
    ensures NameOf(Rows(desired, alias)[i]) == if i < |FACTS_FIELDS| then FACTS_FIELDS[i] else SYNC_TOKEN
  {
    FactsNamesDiffer();
  }

  lemma RowsOk(desired: map<string, string>, alias: string)
    ensures EnvironmentOf(Rows(desired, alias)).Ok?
    ensures ByName(EnvironmentOf(Rows(desired, alias)).value, Rows(desired, alias))
  {
    var rows := Rows(desired, alias);
    FactsNamesDiffer();
    forall i: nat | i <= |FACTS_FIELDS|
      ensures |rows| == |FACTS_FIELDS| + 1 && Named(rows[i])
              && NameOf(rows[i]) == if i < |FACTS_FIELDS| then FACTS_FIELDS[i] else SYNC_TOKEN
    {
      RowNames(desired, alias, i);
    }
    hide Named, NameOf, Rows, EnvironmentOf, ByName;
    RowNames(desired, alias, 0);
    NamedRowsOk(rows);
    EnvironmentIs(rows);
  }

  // ----- who uses the aliases -----

  lemma {:induction false} NoTokenUses(rows: seq<Json>, alias: string)
    requires forall row | row in rows :: !RefersTo(row, alias)
    ensures CountTokenUses(rows, alias) == 0
  {
    hide RefersTo;
    if rows != [] {
      assert forall row | row in rows[..|rows| - 1] :: row in rows;
      NoTokenUses(rows[..|rows| - 1], alias);
    }
  }

  lemma RowUses(desired: map<string, string>, a: string, alias: string)
    ensures CountTokenUses(Rows(desired, a), alias) == if alias == a then 1 else 0
    ensures forall row | row in Rows(desired, a) :: row.Obj? && (RefersTo(row, alias) ==> NameOf(row) == SYNC_TOKEN)
  {
    var rows := Rows(desired, a);
    var init := rows[..|rows| - 1];
    assert rows == init + [TokenRow(a)];
    forall row | row in init
      ensures row.Obj? && !RefersTo(row, alias)
    {
      var i :| 0 <= i < |init| && init[i] == row;
      assert row == FactsRow(FACTS_FIELDS[i], desired);
    }
    assert RefersTo(TokenRow(a), alias) <==> alias == a;
    assert NameOf(TokenRow(a)) == SYNC_TOKEN;
    hide RefersTo, NameOf, Rows, TokenRow, FactsRow;
    NoTokenUses(init, alias);
  }

  // ----- the service -----

  lemma TwinParts(s: Service, a: string, b: string, resource: string, desired: map<string, string>)
    requires s == TwinService(a, b, resource, desired) && Word(a) && Word(b) && ResourceShape(resource)
    ensures OneContainer(s.spec) && EnvRows(s.spec) == List(Rows(desired, a)) && Volumes(s.spec) == List([])
    ensures SecretAliases(s.spec) == Ok(Twins(a, b, resource))
    ensures forall ignored: set<string> :: NormalSpec(s.spec, ignored).Ok?
    ensures s.specTraffic == [] && s.statusTraffic == []
  {
    hide Word, ResourceShape, PrintAliases, ParseAliases, Rows;
    AliasesReadBack(Twins(a, b, resource));
    assert |Rows(desired, a)| > 0 by { RowNames(desired, a, 0); }
  }

  lemma TwinUses(s: Service, a: string, b: string, resource: string, desired: map<string, string>, alias: string)
    requires OneContainer(s.spec) && EnvRows(s.spec) == List(Rows(desired, a)) && Volumes(s.spec) == List([])
    ensures Countable(s.spec) && !UsedElsewhere(s.spec, alias)
    ensures TokenUses(s.spec, alias) == if alias == a then 1 else 0
  {
    hide EnvRows, Volumes, Rows, RefersTo, NameOf;
    RowUses(desired, a, alias);
  }

  lemma TwinEnvironment(environment: Fields, a: string, desired: map<string, string>)
    requires ByName(environment, Rows(desired, a))
    ensures SYNC_TOKEN in environment && environment[SYNC_TOKEN] == TokenRow(a)
    ensures forall name | name in FACTS_FIELDS :: FactsSet(environment, desired, name)
  {
    var rows := Rows(desired, a);
    RowNames(desired, a, |FACTS_FIELDS|);
    assert rows[|FACTS_FIELDS|] == TokenRow(a) && rows[|FACTS_FIELDS|] in rows;
    forall name | name in FACTS_FIELDS
      ensures FactsSet(environment, desired, name)
    {
      var i :| 0 <= i < |FACTS_FIELDS| && FACTS_FIELDS[i] == name;
      RowNames(desired, a, i);
      assert rows[i] == FactsRow(name, desired) && rows[i] in rows;
    }
  }

  lemma TwinToken(spec: Fields, environment: Fields, a: string, b: string, secretName: string, projectNumber: string)
    requires OneContainer(spec) && Countable(spec) && TokenUses(spec, a) == 1 && !UsedElsewhere(spec, a)
    requires SecretAliases(spec) == Ok(Twins(a, b, ResourceOf(projectNumber, secretName)))
    requires SYNC_TOKEN in environment && environment[SYNC_TOKEN] == TokenRow(a)
    ensures TokenAlias(spec, environment, secretName, projectNumber) == Ok(Some(a))
    ensures BaselineIgnored(spec, environment, ResourceOf(projectNumber, secretName)).Ok?
  {
    hide SecretAliases, Countable, TokenUses, UsedElsewhere, ResourceOf;
  }

  lemma OneSpare(spec: Fields, a: string, b: string, resource: string)
    requires OneContainer(spec) && SecretAliases(spec) == Ok(Twins(a, b, resource)) && a != b
    requires TokenUses(spec, b) == 0 && !UsedElsewhere(spec, b)
    ensures Spare(spec, Some(a), resource) == {b}
  {
    hide SecretAliases, TokenUses, UsedElsewhere;
  }

  /** The wanted state, a token that resolves, and a check that fails all the same. */
  lemma SpareAliasRefused(a: string, b: string, secretName: string, projectNumber: string, desired: map<string, string>,
                          fits: Fields -> bool)
    requires a != b && Word(a) && Word(b) && ResourceShape(ResourceOf(projectNumber, secretName))
    requires forall environment: Fields :: fits(environment)
    ensures var s := TwinService(a, b, ResourceOf(projectNumber, secretName), desired);
      && VerifyBefore(s, fits, secretName, projectNumber).Ok?
      && AsWanted(s, fits, desired, secretName, projectNumber)
      && VerifyAfter(s, fits, desired, secretName, projectNumber, VerifyBefore(s, fits, secretName, projectNumber).value)
         != None
  {
    hide *;
    var resource := ResourceOf(projectNumber, secretName);
    var s := TwinService(a, b, resource, desired);
    TwinParts(s, a, b, resource, desired);
    TwinUses(s, a, b, resource, desired, a);
    TwinUses(s, a, b, resource, desired, b);
    RowsOk(desired, a);
    var environment := EnvironmentOf(Rows(desired, a)).value;
    TwinEnvironment(environment, a, desired);
    TwinToken(s.spec, environment, a, b, secretName, projectNumber);
    OneSpare(s.spec, a, b, resource);
    TwinChecks(s, environment, fits, desired, secretName, projectNumber, a);
    UnchangedAcceptedExactly(s, fits, desired, secretName, projectNumber);
  }

  lemma TwinChecks(s: Service, environment: Fields, fits: Fields -> bool, desired: map<string, string>,
                   secretName: string, projectNumber: string, a: string)
    requires OneContainer(s.spec) && EnvRows(s.spec).List? && EnvironmentOf(EnvRows(s.spec).items) == Ok(environment)
    requires fits(environment) && s.specTraffic == [] && s.statusTraffic == []
    requires TokenAlias(s.spec, environment, secretName, projectNumber).Ok?
    requires forall name | name in FACTS_FIELDS :: FactsSet(environment, desired, name)
    requires BaselineIgnored(s.spec, environment, ResourceOf(projectNumber, secretName)).Ok?
    requires forall ignored: set<string> :: NormalSpec(s.spec, ignored).Ok?
    ensures VerifyBefore(s, fits, secretName, projectNumber).Ok?
    ensures ServiceEnvironment(s, fits) == Ok(environment) && AsWanted(s, fits, desired, secretName, projectNumber)
  {
    hide NormalSpec, BaselineIgnored, TokenAlias, EnvironmentOf, EnvRows, Containers, FactsSet, ResourceOf;
  }
}
