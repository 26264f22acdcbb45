/** The feature table of all apps and the approval of a submitted feature manifest. */
module Features {
  import opened Basics

  /** A key is unique within its app. */
  type FeatureKey = (Id, string)

  datatype Feature = Feature(id: Id, displayName: string, description: Option<string>)

  datatype FeatureInput = FeatureInput(key: string, displayName: string, description: Option<string>)

  /** Rows under the unique index on (appId, key), and the primary key's index. */
  datatype Table = Table(rows: map<FeatureKey, Feature>, byId: map<Id, FeatureKey>, nextId: Id)

  ghost predicate Valid(t: Table) {
    && (forall ak :: ak in t.rows ==> t.rows[ak].id in t.byId && t.byId[t.rows[ak].id] == ak)
    && (forall id :: id in t.byId ==> id < t.nextId && t.byId[id] in t.rows && t.rows[t.byId[id]].id == id)
  }

  function Create(t: Table, ak: FeatureKey, f: FeatureInput): Table {
    Table(t.rows[ak := Feature(t.nextId, f.displayName, f.description)], t.byId[t.nextId := ak], t.nextId + 1)
  }

  /** An update writes the display name; an absent description is left as it is. */
  function Amend(row: Feature, displayName: string, description: Option<string>): Feature {
    row.(displayName := displayName, description := if description.Some? then description else row.description)
  }

  function Upsert(t: Table, appId: Id, f: FeatureInput): Table {
    var ak := (appId, f.key);
    if ak in t.rows then
      t.(rows := t.rows[ak := Amend(t.rows[ak], f.displayName, f.description)])
    else
      Create(t, ak, f)
  }

  function UpsertAll(t: Table, appId: Id, fs: seq<FeatureInput>): Table {
    if fs == [] then t else Upsert(UpsertAll(t, appId, fs[..|fs| - 1]), appId, fs[|fs| - 1])
  }

  function Remove(t: Table, id: Id): Table
    requires id in t.byId
  {
    t.(rows := t.rows - {t.byId[id]}, byId := t.byId - {id})
  }

  /** The approval loop over the submitted manifest. */
  method ApproveManifest(t: Table, appId: Id, fs: seq<FeatureInput>) returns (r: Table)
    ensures r == UpsertAll(t, appId, fs)
  {
    r := t;
    for i := 0 to |fs|
      invariant r == UpsertAll(t, appId, fs[..i])
    {
      assert fs[..i + 1][..i] == fs[..i];
      r := Upsert(r, appId, fs[i]);
    }
    assert fs[..|fs|] == fs;
  }

  // ---- What approval guarantees ----

  function Submitted(appId: Id, fs: seq<FeatureInput>): set<FeatureKey> {
    set f | f in fs :: (appId, f.key)
  }

  /** Input i is the last one submitted for its key. */
  predicate LastFor(fs: seq<FeatureInput>, i: nat)
    requires i < |fs|
  {
    forall j :: i < j < |fs| ==> fs[j].key != fs[i].key
  }

  /** Input i carries the last description submitted for its key. */
  predicate LastDescriptionFor(fs: seq<FeatureInput>, i: nat)
    requires i < |fs|
  {
    fs[i].description.Some? && forall j :: i < j < |fs| && fs[j].key == fs[i].key ==> fs[j].description.None?
  }

  /** Rows keep their ids, rows outside `touched` keep everything, and ids keep their keys. */
  ghost predicate Extends(t: Table, r: Table, touched: set<FeatureKey>) {
    && r.nextId >= t.nextId
    && (forall ak :: ak in t.rows ==> ak in r.rows && r.rows[ak].id == t.rows[ak].id)
    && (forall ak :: ak in t.rows && ak !in touched ==> r.rows[ak] == t.rows[ak])
    && (forall id :: id in t.byId ==> id in r.byId && r.byId[id] == t.byId[id])
    && (forall id :: id in r.byId && id !in t.byId ==> id >= t.nextId)
  }

  lemma UpsertExtends(t: Table, appId: Id, f: FeatureInput)
    requires Valid(t)
    ensures Valid(Upsert(t, appId, f))
    ensures Extends(t, Upsert(t, appId, f), {(appId, f.key)})
  {
  }

  lemma CreateValid(t: Table, ak: FeatureKey, f: FeatureInput)
    requires Valid(t) && ak !in t.rows
    ensures Valid(Create(t, ak, f))
  {
  }

  lemma RewriteValid(t: Table, ak: FeatureKey, row: Feature)
    requires Valid(t) && ak in t.rows && row.id == t.rows[ak].id
    ensures Valid(t.(rows := t.rows[ak := row]))
  {
  }

  lemma SubmittedSnoc(appId: Id, fs: seq<FeatureInput>)
    requires fs != []
    ensures Submitted(appId, fs) == Submitted(appId, fs[..|fs| - 1]) + {(appId, fs[|fs| - 1].key)}
  {
  }

  /** Approval keeps ids unique, keeps every existing id, and touches no unsubmitted row and no other app. */
  lemma {:induction false} ApprovalExtends(t: Table, appId: Id, fs: seq<FeatureInput>)
    requires Valid(t)
    ensures Valid(UpsertAll(t, appId, fs))
    ensures Extends(t, UpsertAll(t, appId, fs), Submitted(appId, fs))
  {
    if fs == [] {
    } else {
      var init, last := fs[..|fs| - 1], fs[|fs| - 1];
      ApprovalExtends(t, appId, init);
      UpsertExtends(UpsertAll(t, appId, init), appId, last);
      SubmittedSnoc(appId, fs);
    }
  }

  /** After approval the keys in the table are exactly the old ones and the submitted ones. */
  lemma {:induction false} ApprovalKeys(t: Table, appId: Id, fs: seq<FeatureInput>)
    ensures UpsertAll(t, appId, fs).rows.Keys == t.rows.Keys + Submitted(appId, fs)
  {
    if fs == [] {
    } else {
      ApprovalKeys(t, appId, fs[..|fs| - 1]);
      SubmittedSnoc(appId, fs);
    }
  }

  /** The last input submitted for a key decides its display name. */
  lemma {:induction false} LastDisplayNameWins(t: Table, appId: Id, fs: seq<FeatureInput>, i: nat)
    requires i < |fs| && LastFor(fs, i)
    ensures (appId, fs[i].key) in UpsertAll(t, appId, fs).rows
    ensures UpsertAll(t, appId, fs).rows[(appId, fs[i].key)].displayName == fs[i].displayName
    decreases |fs|
  {
    var n := |fs| - 1;
    if i < n {
      LastDisplayNameWins(t, appId, fs[..n], i);
      assert fs[n].key != fs[i].key;
    }
  }

  /** The description is the last one present in the manifest for that key ... */
  lemma {:induction false} LastDescriptionWins(t: Table, appId: Id, fs: seq<FeatureInput>, i: nat)
    requires i < |fs| && LastDescriptionFor(fs, i)
    ensures (appId, fs[i].key) in UpsertAll(t, appId, fs).rows
    ensures UpsertAll(t, appId, fs).rows[(appId, fs[i].key)].description == fs[i].description
    decreases |fs|
  {
    var n := |fs| - 1;
    if i < n {
      LastDescriptionWins(t, appId, fs[..n], i);
    }
  }

  /** ... and the old one (or none, for a new feature) when no input for that key has one. */
  lemma {:induction false} AbsentDescriptionKept(t: Table, appId: Id, fs: seq<FeatureInput>, key: string)
    requires forall f :: f in fs && f.key == key ==> f.description.None?
    requires (appId, key) in Submitted(appId, fs) || (appId, key) in t.rows
    ensures (appId, key) in UpsertAll(t, appId, fs).rows
    ensures UpsertAll(t, appId, fs).rows[(appId, key)].description ==
              if (appId, key) in t.rows then t.rows[(appId, key)].description else None
    decreases |fs|
  {
    if fs == [] {
    } else {
      var init, last := fs[..|fs| - 1], fs[|fs| - 1];
      SubmittedSnoc(appId, fs);
      assert last in fs;
      ApprovalKeys(t, appId, init);
      if (appId, key) in Submitted(appId, init) || (appId, key) in t.rows {
        AbsentDescriptionKept(t, appId, init, key);
      }
    }
  }

  /** With every key already present, a manifest only rewrites rows: no id is drawn. */
  lemma {:induction false} NoNewRows(t: Table, appId: Id, fs: seq<FeatureInput>)
    requires Submitted(appId, fs) <= t.rows.Keys
    ensures UpsertAll(t, appId, fs).byId == t.byId
    ensures UpsertAll(t, appId, fs).nextId == t.nextId
  {
    if fs == [] {
    } else {
      SubmittedSnoc(appId, fs);
      NoNewRows(t, appId, fs[..|fs| - 1]);
      ApprovalKeys(t, appId, fs[..|fs| - 1]);
    }
  }

  lemma {:induction false} LastInput(fs: seq<FeatureInput>, key: string) returns (i: nat)
    requires exists f :: f in fs && f.key == key
    ensures i < |fs| && fs[i].key == key && LastFor(fs, i)
  {
    var n := |fs| - 1;
    if fs[n].key == key {
      i := n;
    } else {
      assert fs == fs[..n] + [fs[n]];
      i := LastInput(fs[..n], key);
    }
  }

  lemma {:induction false} LastDescription(fs: seq<FeatureInput>, key: string) returns (i: nat)
    requires exists f :: f in fs && f.key == key && f.description.Some?
    ensures i < |fs| && fs[i].key == key && LastDescriptionFor(fs, i)
  {
    var n := |fs| - 1;
    if fs[n].key == key && fs[n].description.Some? {
      i := n;
    } else {
      assert fs == fs[..n] + [fs[n]];
      i := LastDescription(fs[..n], key);
    }
  }

  /** One submitted row is already what a second approval would make it. */
  lemma SecondApprovalRow(t: Table, appId: Id, fs: seq<FeatureInput>, key: string)
    requires (appId, key) in Submitted(appId, fs)
    ensures var r := UpsertAll(t, appId, fs);
            && (appId, key) in r.rows && (appId, key) in UpsertAll(r, appId, fs).rows
            && r.rows[(appId, key)].displayName == UpsertAll(r, appId, fs).rows[(appId, key)].displayName
            && r.rows[(appId, key)].description == UpsertAll(r, appId, fs).rows[(appId, key)].description
  {
    var r := UpsertAll(t, appId, fs);
    ApprovalKeys(t, appId, fs);
    var i := LastInput(fs, key);
    LastDisplayNameWins(t, appId, fs, i);
    LastDisplayNameWins(r, appId, fs, i);
    if exists f :: f in fs && f.key == key && f.description.Some? {
      var d := LastDescription(fs, key);
      LastDescriptionWins(t, appId, fs, d);
      LastDescriptionWins(r, appId, fs, d);
    } else {
      AbsentDescriptionKept(r, appId, fs, key);
    }
  }

  /** Approving the same manifest again changes nothing. */
  lemma ApprovalIdempotent(t: Table, appId: Id, fs: seq<FeatureInput>)
    requires Valid(t)
    ensures UpsertAll(UpsertAll(t, appId, fs), appId, fs) == UpsertAll(t, appId, fs)
  {
    var r := UpsertAll(t, appId, fs);
    var r' := UpsertAll(r, appId, fs);
    ApprovalExtends(t, appId, fs);
    ApprovalExtends(r, appId, fs);
    ApprovalKeys(t, appId, fs);
    ApprovalKeys(r, appId, fs);
    NoNewRows(r, appId, fs);
    forall ak | ak in r.rows ensures r'.rows[ak] == r.rows[ak] {
      if ak in Submitted(appId, fs) {
        SecondApprovalRow(t, appId, fs, ak.1);
      }
    }
    assert r'.rows == r.rows;
  }
}
