/** The older variant of the profile-field filter. It starts from the full
    field data and overwrites a column with '' when the owner's setting
    hides it, so anything it does not reach stays visible. It has no staff
    bypass, does not map bots to the guest, and no error handling. */
module MainListener {
  import opened Privacy
  import GeneralListener

  /** How `user` has marked `zebra`; a missing row reads as no relationship. */
  function ReverseZebra(rows: map<(nat, nat), ZebraRow>, user: nat, zebra: nat): (r: Rel)
    ensures (user, zebra) !in rows ==> r == NoRel
    ensures r == Foe <==> (user, zebra) in rows && rows[(user, zebra)].foe == "1"
    ensures r == Friend <==> (user, zebra) in rows && rows[(user, zebra)].foe != "1" && rows[(user, zebra)].friend == "1"
  {
    if (user, zebra) !in rows then NoRel else Classify(rows[(user, zebra)])
  }

  /** The edge from the profile owner to the viewer; the guest id is never looked up. */
  function Relation(rows: map<(nat, nat), ZebraRow>, owner: nat, selfUid: nat): (r: Rel)
    ensures selfUid == GuestId ==> r == NoRel
    ensures r != NoRel ==> (owner, selfUid) in rows
    // for any other viewer, the edge from the owner to the viewer decides
    ensures selfUid != GuestId ==>
      (r == Foe <==> (owner, selfUid) in rows && rows[(owner, selfUid)].foe == "1")
    ensures selfUid != GuestId ==>
      (r == Friend <==>
        (owner, selfUid) in rows && rows[(owner, selfUid)].foe != "1" && rows[(owner, selfUid)].friend == "1")
  {
    if selfUid != GuestId then ReverseZebra(rows, owner, selfUid) else NoRel
  }

  /** The older listener's per-column decision, as written: a foe loses every
      column; otherwise case 1 blanks for the guest, case 2 blanks for a
      FRIEND, case 3 blanks always, and 0 or any other value keeps the value
      (the `switch` has no default). */
  predicate Blanks(stored: int, selfUid: nat, rel: Rel)
  {
    if rel == Foe then true
    else if stored == 1 then selfUid == GuestId
    else if stored == 2 then rel == Friend
    else stored == 3
  }

  /** The decision with the Friends case evidently intended: case 2 blanks
      for everyone who is NOT the owner's friend. Every other case is as
      written, so an out-of-range value is still kept. */
  predicate BlanksIntended(stored: int, selfUid: nat, rel: Rel): (b: bool)
    ensures stored == 2 ==> (b <==> rel != Friend)
    ensures rel == Foe ==> b
    ensures stored != 2 ==> (b <==> Blanks(stored, selfUid, rel))
  {
    if rel == Foe then true
    else if stored == 1 then selfUid == GuestId
    else if stored == 2 then rel != Friend
    else stored == 3
  }

  /** For a stored level 0..3, the intended decision blanks exactly what the
      current listener's rule would not show to another user. */
  lemma BlanksIntendedMatchesCurrentRule(stored: int, selfUid: nat, owner: nat, rel: Rel)
    requires 0 <= stored <= 3
    requires selfUid != 0 && owner != selfUid
    ensures BlanksIntended(stored, selfUid, rel) <==>
      !GeneralListener.MaySee(GeneralListener.Registered(selfUid), owner, rel, LevelOf(stored))
  {
  }

  /** Where the as-written decision and the current listener's rule part:
      they agree on levels 0, 1 and 3 for every real user id and on foes,
      disagree on every non-foe Friends column, and an out-of-range value is
      kept here but hidden by the current rule. */
  lemma BlanksVersusCurrentRule(stored: int, selfUid: nat, owner: nat, rel: Rel)
    requires selfUid != 0 && owner != selfUid
    ensures rel == Foe ==>
      (Blanks(stored, selfUid, rel) <==> !GeneralListener.MaySee(GeneralListener.Registered(selfUid), owner, rel, LevelOf(stored)))
    ensures stored in {0, 1, 3} ==>
      (Blanks(stored, selfUid, rel) <==> !GeneralListener.MaySee(GeneralListener.Registered(selfUid), owner, rel, LevelOf(stored)))
    ensures stored == 2 && rel != Foe ==>
      (Blanks(stored, selfUid, rel) <==> GeneralListener.MaySee(GeneralListener.Registered(selfUid), owner, rel, LevelOf(stored)))
    ensures (stored < 0 || stored > 3) && rel != Foe ==>
      !Blanks(stored, selfUid, rel) && !GeneralListener.MaySee(GeneralListener.Registered(selfUid), owner, rel, LevelOf(stored))
  {
  }

  /** As written, a friend of the owner loses a Friends-level column and a
      member without any relationship keeps it. */
  lemma FriendsColumnInverted()
    ensures Blanks(2, 5, Friend) && !BlanksIntended(2, 5, Friend)
    ensures !Blanks(2, 5, NoRel) && BlanksIntended(2, 5, NoRel)
  {
  }

  /** The columns of one privacy row that the per-column loop blanks. */
  function BlankedColumns(selfUid: nat, rel: Rel, row: Row): (cols: set<string>)
    ensures forall c :: c in cols <==> c in row && c != UserIdColumn && Blanks(row[c], selfUid, rel)
  {
    set c | c in row && c != UserIdColumn && Blanks(row[c], selfUid, rel)
  }

  /** Entry `e` with every column of `cols` overwritten by '', creating the missing ones. */
  function BlankOut(e: map<string, Value>, cols: set<string>): (b: map<string, Value>)
    ensures b.Keys == e.Keys + cols
    ensures forall c :: c in b ==> b[c] == if c in cols then Some("") else e[c]
  {
    e + map c | c in cols :: Some("")
  }

  /** Whether the loop visits `pid`: a requested user with a privacy row other than the viewer. */
  predicate Visited(selfUid: nat, userIds: seq<nat>, t: Table, pid: nat)
  {
    pid in t && pid in userIds && pid != selfUid
  }

  /** What the loop leaves of user `pid`'s entry: the blanked columns read
      '', every other column is as it was. */
  function SubjectAfter(selfUid: nat, userIds: seq<nat>, data: FieldData, t: Table,
                        zebra: map<(nat, nat), ZebraRow>, pid: nat): (e: map<string, Value>)
    ensures Entry(data, pid).Keys <= e.Keys
    ensures !Visited(selfUid, userIds, t, pid) ==> e == Entry(data, pid)
    ensures forall c :: c in e ==> e[c] == Read(data, pid, c) || e[c] == Some("")
    ensures forall c :: Visited(selfUid, userIds, t, pid) && c in t[pid] && c != UserIdColumn ==>
      if Blanks(t[pid][c], selfUid, Relation(zebra, pid, selfUid)) then c in e && e[c] == Some("")
      else (c in e <==> c in Entry(data, pid)) && (c in e ==> e[c] == Read(data, pid, c))
    ensures forall c :: c in e && (pid !in t || c !in t[pid] || c == UserIdColumn) ==> e[c] == Read(data, pid, c)
  {
    if Visited(selfUid, userIds, t, pid) then
      BlankOut(Entry(data, pid), BlankedColumns(selfUid, Relation(zebra, pid, selfUid), t[pid]))
    else Entry(data, pid)
  }

  /** Filters the custom profile fields of the users on a page. `selfUid` is
      the raw id of the current user, `t` the privacy table the query reads
      and `zebra` the zebra table. */
  function FilterProfileFields(selfUid: nat, userIds: seq<nat>, data: FieldData, t: Table,
                               zebra: map<(nat, nat), ZebraRow>): (r: FieldData)
    // the viewer's own entry is left as it is
    ensures selfUid in data ==> selfUid in r && r[selfUid] == data[selfUid]
    ensures selfUid !in data ==> selfUid !in r
    // nothing is removed
    ensures forall pid :: pid in data ==> pid in r && data[pid].Keys <= r[pid].Keys
    // every value is either the original one or ''
    ensures forall pid, c :: pid in r && c in r[pid] ==> r[pid][c] == Read(data, pid, c) || r[pid][c] == Some("")
    // users the loop does not visit are untouched
    ensures forall pid :: pid in data && !Visited(selfUid, userIds, t, pid) ==> r[pid] == data[pid]
    ensures forall pid :: pid in r && pid !in data ==> Visited(selfUid, userIds, t, pid)
    // a column the decision blanks reads '', any other keeps its value
    ensures forall pid, c :: Visited(selfUid, userIds, t, pid) && c in t[pid] && c != UserIdColumn ==>
      if Blanks(t[pid][c], selfUid, Relation(zebra, pid, selfUid)) then Read(r, pid, c) == Some("")
      else Read(r, pid, c) == Read(data, pid, c)
    // columns outside the privacy row keep their value
    ensures forall pid, c :: pid in r && c in r[pid] && (pid !in t || c !in t[pid] || c == UserIdColumn) ==>
      r[pid][c] == Read(data, pid, c)
  {
    var touched := set pid | pid in t && Visited(selfUid, userIds, t, pid)
      && BlankedColumns(selfUid, Relation(zebra, pid, selfUid), t[pid]) != {};
    map pid | pid in data.Keys + touched :: SubjectAfter(selfUid, userIds, data, t, zebra, pid)
  }

  /** If the owner lists the viewer as a foe, every privacy column of the owner reads ''. */
  lemma FoeLosesEveryColumn(selfUid: nat, userIds: seq<nat>, data: FieldData, t: Table,
                            zebra: map<(nat, nat), ZebraRow>, owner: nat)
    requires Visited(selfUid, userIds, t, owner)
    requires Relation(zebra, owner, selfUid) == Foe
    ensures forall c :: c in t[owner] && c != UserIdColumn ==>
      Read(FilterProfileFields(selfUid, userIds, data, t, zebra), owner, c) == Some("")
  {
  }
}
