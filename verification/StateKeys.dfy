/** The object names under which a strategy run keeps its state, its history and its submission claim. */
module StateKeys {
  predicate Alphanumeric(c: char) {
    'a' <= c <= 'z' || 'A' <= c <= 'Z' || '0' <= c <= '9'
  }

  function Sanitized(value: string): (r: string)
    ensures |r| == |value|
    ensures forall i | 0 <= i < |r| :: r[i] == if Alphanumeric(value[i]) then value[i] else '_'
  {
    seq(|value|, i requires 0 <= i < |value| => if Alphanumeric(value[i]) then value[i] else '_')
  }

  function SafeKey(value: string): string {
    if value == "" then "unknown" else Sanitized(value)
  }

  function Stars(n: nat): (r: string)
    ensures |r| == n && forall i | 0 <= i < n :: r[i] == '*'
  {
    seq(n, i => '*')
  }

  /** The account as the private locators know it: all but the last four characters masked. */
  function LegacyAccountId(account: string): string {
    if |account| <= 4 then Stars(|account|)
    else Stars(|account| - 4) + account[|account| - 4..]
  }

  datatype RunId = RunId(account: string, profile: string, period: string)

  const ROOT := "strategy-runs/"

  function Path(run: RunId): string {
    SafeKey(LegacyAccountId(run.account)) + "/" + (SafeKey(run.profile) + "/" + SafeKey(run.period))
  }

  function Name(run: RunId, dryRun: bool, leaf: string): string {
    (if dryRun then "dry-run/" + Path(run) else Path(run)) + leaf
  }

  function StateKey(run: RunId, dryRun: bool): string {
    ROOT + Name(run, dryRun, "/latest.json")
  }

  /** `entry` is the dated file name of one history record. */
  function HistoryKey(run: RunId, dryRun: bool, entry: string): string {
    ROOT + Name(run, dryRun, "/history/" + entry)
  }

  const CLAIMS := "claims/"
  const JSON := ".json"

  function ClaimKey(run: RunId): string {
    ROOT + (CLAIMS + (Path(run) + JSON))
  }

  // ----- no state or history write ever lands on a claim -----

  lemma NameStart(run: RunId, dryRun: bool, leaf: string)
    ensures var name := Name(run, dryRun, leaf);
      |name| > 0 && name[0] != 'c'
  {
    if |run.account| > 0 {
      assert LegacyAccountId(run.account)[0] == '*';
    }
    var part := SafeKey(LegacyAccountId(run.account));
    assert |part| > 0 && (part[0] == '_' || part[0] == 'u');
  }

  lemma Apart(root: string, x: string, y: string)
    requires |x| > 0 && |y| > 0 && x[0] != y[0]
    ensures root + x != root + y
  {
    assert (root + x)[|root|] == x[0] && (root + y)[|root|] == y[0];
  }

  /** The character after the common root tells a claim from everything else. */
  lemma ClaimsAreApart(claim: RunId, run: RunId, dryRun: bool, entry: string)
    ensures ClaimKey(claim) != StateKey(run, dryRun)
    ensures ClaimKey(claim) != HistoryKey(run, dryRun, entry)
  {
    var name := CLAIMS + (Path(claim) + JSON);
    assert name[0] == 'c';
    NameStart(run, dryRun, "/latest.json");
    Apart(ROOT, name, Name(run, dryRun, "/latest.json"));
    NameStart(run, dryRun, "/history/" + entry);
    Apart(ROOT, name, Name(run, dryRun, "/history/" + entry));
  }

  // ----- which runs share a claim -----

  predicate Slashless(s: string) {
    forall i | 0 <= i < |s| :: s[i] != '/'
  }

  lemma CancelLeft(p: string, x: string, y: string)
    requires p + x == p + y
    ensures x == y
  {
    assert (p + x)[|p|..] == x && (p + y)[|p|..] == y;
  }

  lemma CancelRight(x: string, y: string, p: string)
    requires x + p == y + p
    ensures x == y
  {
    assert |x + p| == |y + p|;
    assert (x + p)[..|x|] == x && (y + p)[..|y|] == y;
  }

  lemma FirstSlash(a: string, x: string, b: string, y: string)
    requires Slashless(a) && Slashless(b)
    requires a + "/" + x == b + "/" + y
    ensures a == b && x == y
  {
    var whole := a + "/" + x;
    assert whole[|a|] == '/' && whole[|b|] == '/';
    assert forall i | 0 <= i < |a| :: whole[i] == a[i] && a[i] != '/';
    assert forall i | 0 <= i < |b| :: whole[i] == b[i] && b[i] != '/';
    assert |a| == |b|;
    assert whole[..|a|] == a && whole[..|b|] == b;
    assert whole[|a| + 1..] == x && whole[|b| + 1..] == y;
  }

  lemma SafeKeySlashless(value: string)
    ensures Slashless(SafeKey(value))
  {
  }

  lemma PathParts(p: RunId, q: RunId)
    requires Path(p) == Path(q)
    ensures SafeKey(LegacyAccountId(p.account)) == SafeKey(LegacyAccountId(q.account))
    ensures SafeKey(p.profile) == SafeKey(q.profile)
    ensures SafeKey(p.period) == SafeKey(q.period)
  {
    SafeKeySlashless(LegacyAccountId(p.account));
    SafeKeySlashless(LegacyAccountId(q.account));
    SafeKeySlashless(p.profile);
    SafeKeySlashless(q.profile);
    hide SafeKey, LegacyAccountId, Slashless;
    FirstSlash(SafeKey(LegacyAccountId(p.account)), SafeKey(p.profile) + "/" + SafeKey(p.period),
               SafeKey(LegacyAccountId(q.account)), SafeKey(q.profile) + "/" + SafeKey(q.period));
    FirstSlash(SafeKey(p.profile), SafeKey(p.period), SafeKey(q.profile), SafeKey(q.period));
  }

  /** Two runs share a claim exactly when account, profile and period agree once masked and sanitised. */
  lemma SharedClaimExactly(p: RunId, q: RunId)
    ensures ClaimKey(p) == ClaimKey(q) <==>
              && SafeKey(LegacyAccountId(p.account)) == SafeKey(LegacyAccountId(q.account))
              && SafeKey(p.profile) == SafeKey(q.profile)
              && SafeKey(p.period) == SafeKey(q.period)
  {
    if ClaimKey(p) == ClaimKey(q) {
      CancelLeft(ROOT, CLAIMS + (Path(p) + JSON), CLAIMS + (Path(q) + JSON));
      CancelLeft(CLAIMS, Path(p) + JSON, Path(q) + JSON);
      CancelRight(Path(p), Path(q), JSON);
      PathParts(p, q);
    }
  }
}
