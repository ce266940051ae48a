/** Per-case data in the store: hashes under `jurisdiction:case:category` keys. */
module Case {
  import opened Common
  import opened Store
  import opened Text
  import Models

  function Key(jurisdictionId: string, caseId: string, category: string): (k: string)
    ensures |k| == |jurisdictionId| + |caseId| + |category| + 2
    ensures k[..|jurisdictionId|] == jurisdictionId && k[|jurisdictionId|] == ':'
    ensures k[|jurisdictionId| + 1..|jurisdictionId| + 1 + |caseId|] == caseId
    ensures k[|jurisdictionId| + 1 + |caseId|] == ':' && k[|jurisdictionId| + |caseId| + 2..] == category
  {
    jurisdictionId + ":" + caseId + ":" + category
  }

  /** A colon-free prefix is determined by where the first colon sits. */
  lemma SplitAtColon(a: string, x: string, b: string, y: string)
    requires ':' !in a && ':' !in b && a + ":" + x == b + ":" + y
    ensures a == b && x == y
  {
    var k := a + ":" + x;
    assert k == a + (":" + x) && k == b + (":" + y);
    IndexOfPrefix(a, ':', ":" + x);
    IndexOfPrefix(b, ':', ":" + y);
    assert a == k[..|a|] && b == k[..|b|];
    assert x == k[|a| + 1..] && y == k[|b| + 1..];
  }

  /** Ids without colons give distinct keys for distinct (jurisdiction, case, category). */
  lemma KeyInjective(j1: string, c1: string, g1: string, j2: string, c2: string, g2: string)
    requires ':' !in j1 && ':' !in c1 && ':' !in j2 && ':' !in c2
    requires Key(j1, c1, g1) == Key(j2, c2, g2)
    ensures j1 == j2 && c1 == c2 && g1 == g2
  {
    assert Key(j1, c1, g1) == j1 + ":" + (c1 + ":" + g1);
    assert Key(j2, c2, g2) == j2 + ":" + (c2 + ":" + g2);
    SplitAtColon(j1, c1 + ":" + g1, j2, c2 + ":" + g2);
    SplitAtColon(c1, g1, c2, g2);
  }

  function SaveDocTask(s: Session, jurisdictionId: string, caseId: string, docId: string, taskId: string): Session {
    HSetMapping(s, Key(jurisdictionId, caseId, "task"), map[docId := taskId])
  }

  function GetDocTasks(s: Session, jurisdictionId: string, caseId: string): map<string, string> {
    HGetAll(s, Key(jurisdictionId, caseId, "task"))
  }

  function SaveRoles(s: Session, jurisdictionId: string, caseId: string, roles: map<string, string>): Session {
    HSetMapping(s, Key(jurisdictionId, caseId, "role"), roles)
  }

  /** `get_aliases`: one masked subject per entry of the case's mask hash. */
  function GetAliases(s: Session, jurisdictionId: string, caseId: string): (r: set<Models.MaskedSubject>)
    ensures forall m :: m in r ==> m.subjectId in HGetAll(s, Key(jurisdictionId, caseId, "mask"))
                                   && m.alias == HGetAll(s, Key(jurisdictionId, caseId, "mask"))[m.subjectId]
    ensures forall k :: k in HGetAll(s, Key(jurisdictionId, caseId, "mask")) ==>
              Models.MaskedSubject(k, HGetAll(s, Key(jurisdictionId, caseId, "mask"))[k]) in r
  {
    var masks := HGetAll(s, Key(jurisdictionId, caseId, "mask"));
    set k | k in masks :: Models.MaskedSubject(k, masks[k])
  }

  /** Saving a document's task, once committed, records exactly that entry and leaves the
      case's other entries and other cases' entries as they were. */
  lemma SaveDocTaskCommitted(s: Session, j: string, c: string, docId: string, taskId: string, j2: string, c2: string)
    ensures var t := Exit(SaveDocTask(s, j, c, docId, taskId), false);
      GetDocTasks(t, j, c) == GetDocTasks(Exit(s, false), j, c)[docId := taskId]
      && ((j2, c2) != (j, c) && ':' !in j && ':' !in c && ':' !in j2 && ':' !in c2 ==>
            GetDocTasks(t, j2, c2) == GetDocTasks(Exit(s, false), j2, c2))
  {
    var ws := SaveDocTask(s, j, c, docId, taskId).buffer;
    assert ws[..|ws| - 1] == s.buffer;
    if (j2, c2) != (j, c) && ':' !in j && ':' !in c && ':' !in j2 && ':' !in c2 {
      if Key(j2, c2, "task") == Key(j, c, "task") {
        KeyInjective(j2, c2, "task", j, c, "task");
      }
    }
  }

  /** Saved roles are merged into the case's role hash on commit. */
  lemma SaveRolesCommitted(s: Session, j: string, c: string, roles: map<string, string>)
    ensures HGetAll(Exit(SaveRoles(s, j, c, roles), false), Key(j, c, "role"))
            == HGetAll(Exit(s, false), Key(j, c, "role")) + roles
  {
    var ws := SaveRoles(s, j, c, roles).buffer;
    assert ws[..|ws| - 1] == s.buffer;
  }

  /** Until the session commits, the saved task is not visible to the same session's reads. */
  lemma SaveDocTaskNotYetVisible(s: Session, j: string, c: string, docId: string, taskId: string)
    ensures GetDocTasks(SaveDocTask(s, j, c, docId, taskId), j, c) == GetDocTasks(s, j, c)
  {
  }
}
