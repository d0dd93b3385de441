/**
 * The cleanup_old_issuances scheduled task: delete every issuance row, whatever its status,
 * created before now minus the retention period (365 days when none is configured).
 */
module Cleanup {
  import opened Common
  import opened Records
  import opened Store

  const DaySecs: int := 86400

  /** The retention period used when the `dataretention` setting is empty. */
  const DefaultRetention: int := 365 * DaySecs

  /** The retention period: the configured one, or the default when the setting is unset or 0. */
  function RetentionPeriod(configured: Option<int>): (p: int)
    ensures SetInt(configured) ==> p == configured.value
    ensures !SetInt(configured) ==> p == 31536000
  {
    if SetInt(configured) then configured.value else DefaultRetention
  }

  /** Rows created strictly before this time are deleted. */
  function Cutoff(configured: Option<int>, now: int): int {
    now - RetentionPeriod(configured)
  }

  /** The ids of the rows the task deletes. */
  function OldIds(rows: map<int, Issuance>, cutoff: int): set<int> {
    set id | id in rows && rows[id].timecreated < cutoff
  }

  /** The table the task leaves. */
  function Retained(rows: map<int, Issuance>, cutoff: int): map<int, Issuance> {
    map id | id in rows && rows[id].timecreated >= cutoff :: rows[id]
  }

  /** `cleanup_old_issuances::execute`: count the old rows, stop if there are none, otherwise delete them. */
  method CleanupOldIssuances(site: Site, configured: Option<int>, now: int)
    requires site.Valid()
    modifies site
    ensures site.Valid()
    ensures site.issuances == Retained(old(site.issuances), Cutoff(configured, now))
    ensures site.nextId == old(site.nextId) && site.requests == old(site.requests) && site.effects == old(site.effects)
  {
    var retentionperiod := RetentionPeriod(configured);
    var cutofftime := now - retentionperiod;
    var count := |OldIds(site.issuances, cutofftime)|;
    if count == 0 {
      NothingOldNothingDeleted(site.issuances, cutofftime);
      return;
    }
    site.DeleteCreatedBefore(cutofftime);
  }

  // ---------------------------------------------------------------- properties

  /** Exactly the rows created before the cutoff go, whatever their status; the others stay as they were. */
  lemma DeletesExactlyTheOld(rows: map<int, Issuance>, cutoff: int)
    ensures var kept := Retained(rows, cutoff);
            && kept.Keys == rows.Keys - OldIds(rows, cutoff)
            && (forall id :: id in kept ==> kept[id] == rows[id])
            && kept.Keys * OldIds(rows, cutoff) == {}
  {
    var kept := Retained(rows, cutoff);
    assert kept.Keys == rows.Keys - OldIds(rows, cutoff) by {
      forall id ensures id in kept.Keys <==> id in rows.Keys - OldIds(rows, cutoff) {
      }
    }
  }

  /** The comparison is strict: a row created exactly at the cutoff is kept, one a second earlier is deleted. */
  lemma CutoffIsExclusive(rows: map<int, Issuance>, cutoff: int, id: int)
    requires id in rows
    ensures rows[id].timecreated == cutoff ==> id in Retained(rows, cutoff)
    ensures rows[id].timecreated == cutoff - 1 ==> id !in Retained(rows, cutoff)
  {
  }

  /** With no old rows the task changes nothing, which is why it may stop after counting. */
  lemma NothingOldNothingDeleted(rows: map<int, Issuance>, cutoff: int)
    requires |OldIds(rows, cutoff)| == 0
    ensures Retained(rows, cutoff) == rows
  {
    assert OldIds(rows, cutoff) == {};
    forall id | id in rows ensures rows[id].timecreated >= cutoff {
      assert id !in OldIds(rows, cutoff);
    }
  }

  /** Running the task twice at the same time deletes nothing more the second time. */
  lemma CleanupIdempotent(rows: map<int, Issuance>, cutoff: int)
    ensures Retained(Retained(rows, cutoff), cutoff) == Retained(rows, cutoff)
    ensures OldIds(Retained(rows, cutoff), cutoff) == {}
  {
  }

  /** A later run with the same retention deletes at least what an earlier one did. */
  lemma LaterCutoffKeepsLess(rows: map<int, Issuance>, c1: int, c2: int)
    requires c1 <= c2
    ensures Retained(rows, c2).Keys <= Retained(rows, c1).Keys
  {
  }
}
