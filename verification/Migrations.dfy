/**
 The migration runner: the order the loader fixes, the reconciliation of the ledger with a
 repository history, and the transaction a runner repeats for each migration.
 */
module Migrations {
  import opened Common

  /** `file` stands for the file name and `sql` for its text. */
  datatype Migration = Migration(version: nat, file: nat, checksum: nat, sql: nat)
  datatype Row = Row(version: nat, file: nat, checksum: nat)

  // ---------------------------------------------------------------- the loader

  const VERSION_DIGITS: nat := 14

  predicate Digits(s: string) {
    forall i | 0 <= i < |s| :: '0' <= s[i] <= '9'
  }

  function Value(s: string): nat
    requires Digits(s)
  {
    if s == "" then 0 else 10 * Value(s[..|s| - 1]) + (s[|s| - 1] as int - '0' as int)
  }

  /** FORWARD_FILE, as far as ordering needs it: fourteen digits, then an underscore. */
  predicate ForwardFile(name: string) {
    |name| > VERSION_DIGITS && Digits(name[..VERSION_DIGITS]) && name[VERSION_DIGITS] == '_'
  }

  function VersionOf(name: string): nat
    requires ForwardFile(name)
  {
    Value(name[..VERSION_DIGITS])
  }

  /** The order of toSorted: by code unit, a proper prefix first. */
  predicate SortsBefore(a: string, b: string) {
    b != "" && (a == "" || a[0] < b[0] || (a[0] == b[0] && SortsBefore(a[1..], b[1..])))
  }

  lemma {:induction false} FirstDifference(a: string, b: string, n: nat) returns (k: nat)
    requires SortsBefore(a, b) && n <= |a| && n <= |b| && a[..n] != b[..n]
    ensures k < n && a[..k] == b[..k] && a[k] < b[k]
    decreases n
  {
    assert a[..0] == b[..0];
    if a[0] < b[0] {
      k := 0;
    } else {
      assert a[..n] == [a[0]] + a[1..][..n - 1] && b[..n] == [b[0]] + b[1..][..n - 1];
      var rest := FirstDifference(a[1..], b[1..], n - 1);
      k := rest + 1;
      assert a[..k] == [a[0]] + a[1..][..rest] && b[..k] == [b[0]] + b[1..][..rest];
    }
  }

  lemma {:induction false} SmallerDigitSmallerValue(a: string, b: string, k: nat)
    requires Digits(a) && Digits(b) && |a| == |b| && k < |a| && a[..k] == b[..k] && a[k] < b[k]
    ensures Value(a) < Value(b)
    decreases |a|
  {
    var n := |a| - 1;
    if k < n {
      assert a[..n][..k] == a[..k] && b[..n][..k] == b[..k];
      SmallerDigitSmallerValue(a[..n], b[..n], k);
    }
  }

  /** Files sorted by name with different versions are sorted by version. */
  lemma SortedFilesSortVersions(a: string, b: string)
    requires ForwardFile(a) && ForwardFile(b) && SortsBefore(a, b) && VersionOf(a) != VersionOf(b)
    ensures VersionOf(a) < VersionOf(b)
  {
    var k := FirstDifference(a, b, VERSION_DIGITS);
    var x, y := a[..VERSION_DIGITS], b[..VERSION_DIGITS];
    assert x[..k] == a[..k] && y[..k] == b[..k];
    SmallerDigitSmallerValue(x, y, k);
  }

  /** The duplicate check: it accepts exactly the directories whose versions ascend. */
  method LoadVersions(files: seq<string>) returns (versions: Option<seq<nat>>)
    requires forall i | 0 <= i < |files| :: ForwardFile(files[i])
    requires forall i, j | 0 <= i < j < |files| :: SortsBefore(files[i], files[j])
    ensures versions.Some? <==> forall i, j | 0 <= i < j < |files| :: VersionOf(files[i]) < VersionOf(files[j])
    ensures versions.Some? ==>
              |versions.value| == |files| && forall i | 0 <= i < |files| :: versions.value[i] == VersionOf(files[i])
  {
    var seen: set<nat> := {};
    var list: seq<nat> := [];
    for n := 0 to |files|
      invariant |list| == n && forall i | 0 <= i < n :: list[i] == VersionOf(files[i])
      invariant forall v :: v in seen <==> v in list
      invariant forall i, j | 0 <= i < j < n :: VersionOf(files[i]) < VersionOf(files[j])
    {
      var v := VersionOf(files[n]);
      if v in seen {
        var i :| 0 <= i < |list| && list[i] == v;
        return None;
      }
      forall i | 0 <= i < n
        ensures VersionOf(files[i]) < v
      {
        assert list[i] in seen;
        SortedFilesSortVersions(files[i], files[n]);
      }
      seen := seen + {v};
      list := list + [v];
    }
    versions := Some(list);
  }

  /** What the loader delivers: ascending versions, and the directory's distinct file names. */
  ghost predicate History(h: seq<Migration>) {
    && (forall i, j | 0 <= i < j < |h| :: h[i].version < h[j].version)
    && (forall i, j | 0 <= i < j < |h| :: h[i].file != h[j].file)
  }

  // ---------------------------------------------------------------- reconciliation

  function RowOf(m: Migration): Row {
    Row(m.version, m.file, m.checksum)
  }

  function Rows(h: seq<Migration>): (rows: seq<Row>)
    ensures |rows| == |h| && forall i | 0 <= i < |h| :: rows[i] == RowOf(h[i])
  {
    seq(|h|, i requires 0 <= i < |h| => RowOf(h[i]))
  }

  function Versions(rows: seq<Row>): set<nat> {
    set i | 0 <= i < |rows| :: rows[i].version
  }

  datatype Reconciled = Applied(versions: set<nat>) | Missing(version: nat) | Drifted(version: nat) | NotAPrefix

  /** The ledger read ORDER BY version equals an initial part of the repository history. */
  ghost predicate PrefixOf(ledger: seq<Row>, h: seq<Migration>) {
    ledger <= Rows(h)
  }

  /** new Map(migrations by version). */
  method IndexByVersion(h: seq<Migration>) returns (byVersion: map<nat, Migration>)
    requires History(h)
    ensures forall i | 0 <= i < |h| :: h[i].version in byVersion && byVersion[h[i].version] == h[i]
    ensures forall v | v in byVersion :: byVersion[v] in h && byVersion[v].version == v
  {
    byVersion := map[];
    for n := 0 to |h|
      invariant forall i | 0 <= i < n :: h[i].version in byVersion && byVersion[h[i].version] == h[i]
      invariant forall v | v in byVersion :: byVersion[v] in h && byVersion[v].version == v
    {
      byVersion := byVersion[h[n].version := h[n]];
    }
  }

  /** The second pass: are the applied versions an initial part of the history? */
  method CheckOrder(ledger: seq<Row>, h: seq<Migration>) returns (applied: Option<set<nat>>)
    ensures applied.Some? <==> |ledger| <= |h| && forall i | 0 <= i < |ledger| :: ledger[i].version == h[i].version
    ensures applied.Some? ==> applied.value == Versions(ledger)
  {
    var versions: set<nat> := {};
    for n := 0 to |ledger|
      invariant n <= |h| && forall i | 0 <= i < n :: ledger[i].version == h[i].version
      invariant forall v :: v in versions <==> exists i | 0 <= i < n :: ledger[i].version == v
    {
      if n >= |h| || ledger[n].version != h[n].version {
        return None;
      }
      versions := versions + {ledger[n].version};
    }
    applied := Some(versions);
  }

  predicate KnownRow(row: Row, h: seq<Migration>) {
    exists i | 0 <= i < |h| :: RowOf(h[i]) == row
  }

  lemma KnownByVersion(row: Row, h: seq<Migration>, i: nat)
    requires History(h) && KnownRow(row, h) && i < |h|
    ensures row.version == h[i].version <==> row == RowOf(h[i])
  {
    var j :| 0 <= j < |h| && RowOf(h[j]) == row;
    assert i < j ==> h[i].version < h[j].version;
    assert j < i ==> h[j].version < h[i].version;
  }

  lemma KnownInOrder(ledger: seq<Row>, h: seq<Migration>)
    requires History(h) && forall i | 0 <= i < |ledger| :: KnownRow(ledger[i], h)
    ensures PrefixOf(ledger, h) <==>
            |ledger| <= |h| && forall i | 0 <= i < |ledger| :: ledger[i].version == h[i].version
  {
    forall i | 0 <= i < |ledger| && i < |h|
      ensures ledger[i].version == h[i].version <==> ledger[i] == Rows(h)[i]
    {
      KnownByVersion(ledger[i], h, i);
    }
  }

  /**
   reconcile: it succeeds exactly when the ledger is a prefix of the history in version, file
   name and checksum, and then reports the applied versions.
   */
  method Reconcile(ledger: seq<Row>, h: seq<Migration>) returns (r: Reconciled)
    requires History(h)
    ensures r.Applied? <==> PrefixOf(ledger, h)
    ensures r.Applied? ==> r.versions == Versions(ledger)
    ensures r.Missing? ==> exists row | row in ledger ::
                row.version == r.version && forall m | m in h :: m.version != r.version
    ensures r.Drifted? ==> exists row | row in ledger :: row.version == r.version && !KnownRow(row, h)
    ensures r.NotAPrefix? ==> forall row | row in ledger :: KnownRow(row, h)
  {
    var byVersion := IndexByVersion(h);
    for n := 0 to |ledger|
      invariant forall i | 0 <= i < n :: KnownRow(ledger[i], h)
    {
      var row := ledger[n];
      assert PrefixOf(ledger, h) ==> row == Rows(h)[n] == RowOf(h[n]);
      if row.version !in byVersion {
        return Missing(row.version);
      }
      var local := byVersion[row.version];
      if row.file != local.file || row.checksum != local.checksum {
        return Drifted(row.version);
      }
      assert RowOf(local) == row;
    }
    KnownInOrder(ledger, h);
    var applied := CheckOrder(ledger, h);
    r := if applied.None? then NotAPrefix else Applied(applied.value);
  }
}
