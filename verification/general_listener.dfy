/** The current visibility filter of the extension: one rule, deciding whether
    a viewer may see one privacy column of a profile owner, and the three
    places it is applied: the custom profile fields of every user on a page,
    the age on a profile page, and the birthday list of the board index.
    All three start from an emptied output and copy back what the rule
    admits, so a failed query hides rather than reveals. */
module GeneralListener {
  import opened Privacy

  /** What the listener learns about the current request's user. `staff` is
      the outcome of the administrator/moderator permission test. */
  datatype Session = Session(staff: bool, registered: bool, bot: bool, id: nat)

  /** The three kinds of viewer the filters tell apart. */
  datatype Viewer = Privileged | Guest | Registered(id: nat)

  /** Staff bypass every filter; bots and unregistered visitors count as the guest. */
  function ViewerOf(s: Session): (v: Viewer)
    ensures v.Privileged? <==> s.staff
    ensures v.Guest? <==> !s.staff && (!s.registered || s.bot)
    ensures v.Registered? ==> v.id == s.id
  {
    if s.staff then Privileged
    else if s.registered && !s.bot then Registered(s.id)
    else Guest
  }

  /** The id the filters compare against: the guest is id 1. */
  function Uid(v: Viewer): (id: nat)
    requires !v.Privileged?
    ensures v.Guest? ==> id == GuestId
    ensures v.Registered? ==> id == v.id
  {
    if v.Guest? then GuestId else v.id
  }

  /** How `user` has marked `zebra`: one zebra query per call; an error or a
      missing row both read as no relationship. */
  function ReverseZebra(z: Zebra, user: nat, zebra: nat): (r: Rel)
    ensures r == Foe <==>
      (user, zebra) !in z.failing && (user, zebra) in z.rows && z.rows[(user, zebra)].foe == "1"
    ensures r == Friend <==>
      && (user, zebra) !in z.failing && (user, zebra) in z.rows
      && z.rows[(user, zebra)].foe != "1" && z.rows[(user, zebra)].friend == "1"
  {
    if (user, zebra) in z.failing then NoRel
    else if (user, zebra) !in z.rows then NoRel
    else Classify(z.rows[(user, zebra)])
  }

  /** The relationship the filters use: the edge from the profile owner to the
      viewer. The guest is never looked up. */
  function Relation(z: Zebra, owner: nat, uid: nat): (r: Rel)
    ensures uid == GuestId ==> r == NoRel
    ensures r != NoRel ==> (owner, uid) in z.rows && (owner, uid) !in z.failing
    ensures r == Friend ==> z.rows[(owner, uid)].friend == "1"
    ensures r == Foe ==> z.rows[(owner, uid)].foe == "1"
    // for any other viewer, the edge from the owner to the viewer decides
    ensures uid != GuestId ==>
      (r == Foe <==> (owner, uid) !in z.failing && (owner, uid) in z.rows && z.rows[(owner, uid)].foe == "1")
    ensures uid != GuestId ==>
      (r == Friend <==>
        && (owner, uid) !in z.failing && (owner, uid) in z.rows
        && z.rows[(owner, uid)].foe != "1" && z.rows[(owner, uid)].friend == "1")
  {
    if uid != GuestId then ReverseZebra(z, owner, uid) else NoRel
  }

  /** The per-level table of the filters' `switch`, for a viewer who is
      neither the owner nor a foe of the owner. */
  predicate Admits(l: Level, uid: nat, rel: Rel)
  {
    match l
    case Public => true
    case Members => uid > GuestId
    case Friends => rel == Friend
    case Hidden => false
  }

  /** The visibility rule: staff see everything, everybody sees their own
      data, a foe of the owner sees nothing, anyone else sees what the level
      admits. */
  predicate MaySee(v: Viewer, owner: nat, rel: Rel, l: Level)
  {
    v.Privileged? || Uid(v) == owner || (rel != Foe && Admits(l, Uid(v), rel))
  }

  /** The relationship the filters would compute for viewer `v` (staff are never looked up). */
  function RelationOf(v: Viewer, z: Zebra, owner: nat): Rel
  {
    if v.Privileged? then NoRel else Relation(z, owner, Uid(v))
  }

  /** A stricter level never shows a column to someone a looser level hides it from. */
  lemma MonotoneInLevel(v: Viewer, z: Zebra, owner: nat, l1: Level, l2: Level)
    requires v.Registered? ==> v.id != 0
    requires Rank(l1) <= Rank(l2)
    requires MaySee(v, owner, RelationOf(v, z, owner), l2)
    ensures MaySee(v, owner, RelationOf(v, z, owner), l1)
  {
  }

  /** The guest sees another user's column only when it is Public. */
  lemma GuestSeesOnlyPublic(z: Zebra, owner: nat, l: Level)
    requires owner != GuestId
    ensures MaySee(Guest, owner, RelationOf(Guest, z, owner), l) <==> l == Public
  {
  }

  /** Becoming a friend of the owner never hides anything. */
  lemma FriendshipOnlyGrants(v: Viewer, owner: nat, l: Level)
    ensures MaySee(v, owner, NoRel, l) ==> MaySee(v, owner, Friend, l)
    ensures !v.Privileged? && Uid(v) != owner && l == Friends ==>
      !MaySee(v, owner, NoRel, l) && MaySee(v, owner, Friend, l)
  {
  }

  // ---------------------------------------------------------------------
  // Custom profile fields (core.grab_profile_fields_data)
  // ---------------------------------------------------------------------

  /** The columns of one privacy row that the per-field `switch` copies back. */
  function AdmittedColumns(uid: nat, rel: Rel, row: Row): (cols: set<string>)
    ensures forall c :: c in cols <==> c in row && c != UserIdColumn && rel != Foe && Admits(LevelOf(row[c]), uid, rel)
  {
    set c | c in row && c != UserIdColumn && rel != Foe && Admits(LevelOf(row[c]), uid, rel)
  }

  /** What the per-row loop leaves in the output for subject `pid`: the whole
      original entry when it is the viewer, and every admitted column read
      from the original data (null when the data lacks it). */
  function SubjectView(uid: nat, rel: Rel, pid: nat, row: Row, original: FieldData): (e: map<string, Value>)
    ensures e.Keys == (if uid == pid then Entry(original, pid).Keys else {}) + AdmittedColumns(uid, rel, row)
    ensures forall c :: c in e ==> e[c] == Read(original, pid, c)
  {
    var copied := if uid == pid then Entry(original, pid) else map[];
    copied + map c | c in AdmittedColumns(uid, rel, row) :: Read(original, pid, c)
  }

  /** A subject gets an output entry when it is the viewer or when a column is copied. */
  predicate Listed(uid: nat, rel: Rel, pid: nat, row: Row)
  {
    uid == pid || AdmittedColumns(uid, rel, row) != {}
  }

  /** Filters the custom profile fields of the users on a page. `privacy` is
      the outcome of the query for the privacy rows of `userIds`. */
  function FilterProfileFields(s: Session, userIds: seq<nat>, original: FieldData,
                               privacy: Query<Table>, z: Zebra): (r: FieldData)
    ensures |userIds| == 0 || s.staff ==> r == original
    ensures |userIds| > 0 && !s.staff && privacy.Failed? ==> r == map[]
    ensures |userIds| > 0 && !s.staff && privacy.Answered? ==>
      var v := ViewerOf(s);
      var t := privacy.value;
      // fail closed: only requested users that have a privacy row appear
      && (forall pid :: pid in r ==> pid in t && pid in userIds)
      // nothing is invented: every value is the original one (or null)
      && (forall pid, c :: pid in r && c in r[pid] ==> r[pid][c] == Read(original, pid, c))
      // another user's column appears exactly when the rule lets the viewer see it
      && (forall pid, c :: pid in t && pid in userIds && pid != Uid(v) && c != UserIdColumn && c in t[pid] ==>
            (pid in r && c in r[pid] <==> MaySee(v, pid, Relation(z, pid, Uid(v)), LevelOf(t[pid][c]))))
      && (forall pid, c :: pid in r && pid != Uid(v) && c in r[pid] ==> c in t[pid] && c != UserIdColumn)
      // the viewer keeps every original field of their own, if they have a privacy row
      && (Uid(v) in t && Uid(v) in userIds ==>
            Uid(v) in r && forall c :: c in Entry(original, Uid(v)) ==> c in r[Uid(v)])
  {
    if |userIds| == 0 then original
    else
      var v := ViewerOf(s);
      if v.Privileged? then original
      else
        match privacy
        case Failed => map[]
        case Answered(t) =>
          var uid := Uid(v);
          map pid | pid in t && pid in userIds && Listed(uid, Relation(z, pid, uid), pid, t[pid])
            :: SubjectView(uid, Relation(z, pid, uid), pid, t[pid], original)
  }

  /** A foe of the owner gets nothing of the owner's, unless viewing their own profile. */
  lemma ProfileFieldsHideFromFoes(s: Session, userIds: seq<nat>, original: FieldData, t: Table, z: Zebra, owner: nat)
    requires !s.staff
    requires Uid(ViewerOf(s)) != owner
    requires Relation(z, owner, Uid(ViewerOf(s))) == Foe
    ensures |userIds| > 0 ==> owner !in FilterProfileFields(s, userIds, original, Answered(t), z)
  {
    var r := FilterProfileFields(s, userIds, original, Answered(t), z);
    if |userIds| > 0 && owner in r {
      assert false;
    }
  }

  // ---------------------------------------------------------------------
  // Age on the profile page (core.memberlist_prepare_profile_data)
  // ---------------------------------------------------------------------

  /** The `bday_age` setting of `pid` as the single-field query returns it:
      no row reads as false (None). */
  function BdaySetting(t: Table, pid: nat): Option<int>
  {
    if pid in t && BdayColumn in t[pid] then Some(t[pid][BdayColumn]) else None
  }

  /** Filters the AGE template value of profile `profileId`. `bday` is the
      outcome of the query for the owner's `bday_age` setting. */
  function FilterAge(s: Session, profileId: nat, age: string, bday: Query<Option<int>>, z: Zebra): (shown: string)
    ensures shown == age || shown == ""
    ensures s.staff ==> shown == age
    ensures !s.staff && Uid(ViewerOf(s)) == profileId ==> shown == age
    ensures !s.staff && Uid(ViewerOf(s)) != profileId && (bday.Failed? || bday.value.None?) ==> shown == ""
    ensures !s.staff && bday.Answered? && bday.value.Some? ==>
      var v := ViewerOf(s);
      MaySee(v, profileId, Relation(z, profileId, Uid(v)), LevelOf(bday.value.value)) ==> shown == age
    ensures !s.staff && bday.Answered? && bday.value.Some? ==>
      var v := ViewerOf(s);
      !MaySee(v, profileId, Relation(z, profileId, Uid(v)), LevelOf(bday.value.value)) ==> shown == ""
  {
    var v := ViewerOf(s);
    if v.Privileged? then age
    else
      var uid := Uid(v);
      if uid == profileId then age
      else
        match bday
        case Failed => ""
        case Answered(None) => ""
        case Answered(Some(stored)) =>
          var rel := Relation(z, profileId, uid);
          if rel == Foe then ""
          else if Admits(LevelOf(stored), uid, rel) then age
          else ""
  }

  // ---------------------------------------------------------------------
  // Birthday list on the board index (core.index_modify_birthdays_list)
  // ---------------------------------------------------------------------

  /** One birthday of the list: the user it belongs to and the entry shown. */
  datatype Birthday<B> = Birthday(userId: nat, entry: B)

  /** The entries of a birthday list, in order. */
  function Entries<B>(list: seq<Birthday<B>>): (r: seq<B>)
    ensures |r| == |list|
    ensures forall i :: 0 <= i < |list| ==> r[i] == list[i].entry
  {
    seq(|list|, i requires 0 <= i < |list| => list[i].entry)
  }

  /** `a` is `b` with some elements left out, the rest in their order. */
  predicate SubsequenceOf<T(==)>(a: seq<T>, b: seq<T>)
    decreases |b|
  {
    if |a| == 0 then true
    else if |b| == 0 then false
    else
      || (a[|a| - 1] == b[|b| - 1] && SubsequenceOf(a[..|a| - 1], b[..|b| - 1]))
      || SubsequenceOf(a, b[..|b| - 1])
  }

  /** Every list is a subsequence of itself. */
  lemma {:induction false} SubsequenceReflexive<T>(a: seq<T>)
    ensures SubsequenceOf(a, a)
    decreases |a|
  {
    if |a| > 0 {
      SubsequenceReflexive(a[..|a| - 1]);
    }
  }

  /** The level the birthday loop reads for `pid` from the fetched settings;
      a user without a settings row reads as `missing`. */
  function BirthdayLevel(settings: map<nat, int>, pid: nat, missing: Level): Level
  {
    if pid in settings then LevelOf(settings[pid]) else missing
  }

  /** Whether the rule shows `pid`'s birthday to `v`. */
  predicate BirthdayShown(v: Viewer, z: Zebra, settings: map<nat, int>, missing: Level, pid: nat)
    requires !v.Privileged?
  {
    MaySee(v, pid, Relation(z, pid, Uid(v)), BirthdayLevel(settings, pid, missing))
  }

  /** The positions of `list` whose owner the rule shows, in increasing
      order: the rows the birthday loop keeps. */
  function ShownPositions<B>(v: Viewer, z: Zebra, settings: map<nat, int>, missing: Level,
                             list: seq<Birthday<B>>): (idx: seq<nat>)
    requires !v.Privileged?
    ensures forall k :: 0 <= k < |idx| ==> idx[k] < |list|
    ensures forall k, m :: 0 <= k < m < |idx| ==> idx[k] < idx[m]
    ensures forall i :: 0 <= i < |list| ==> (i in idx <==> BirthdayShown(v, z, settings, missing, list[i].userId))
    decreases |list|
  {
    if |list| == 0 then []
    else
      var n := |list| - 1;
      var init := ShownPositions(v, z, settings, missing, list[..n]);
      assert forall i :: 0 <= i < n ==> list[..n][i] == list[i];
      if BirthdayShown(v, z, settings, missing, list[n].userId) then init + [n] else init
  }

  /** A list that holds, position by position, the entries at the shown
      positions holds every shown entry and no other. */
  lemma KeptByPosition<B>(v: Viewer, z: Zebra, settings: map<nat, int>, missing: Level,
                          list: seq<Birthday<B>>, r: seq<B>)
    requires !v.Privileged?
    requires |r| == |ShownPositions(v, z, settings, missing, list)|
    requires forall k :: 0 <= k < |r| ==> r[k] == list[ShownPositions(v, z, settings, missing, list)[k]].entry
    ensures forall i :: 0 <= i < |list| && BirthdayShown(v, z, settings, missing, list[i].userId) ==>
      list[i].entry in r
    ensures forall x :: x in r ==>
      exists i :: 0 <= i < |list| && list[i].entry == x && BirthdayShown(v, z, settings, missing, list[i].userId)
  {
    var idx := ShownPositions(v, z, settings, missing, list);
    forall i | 0 <= i < |list| && BirthdayShown(v, z, settings, missing, list[i].userId)
      ensures list[i].entry in r
    {
      assert i in idx;
      var k :| 0 <= k < |idx| && idx[k] == i;
      assert r[k] == list[i].entry;
    }
    forall x | x in r
      ensures exists i :: 0 <= i < |list| && list[i].entry == x && BirthdayShown(v, z, settings, missing, list[i].userId)
    {
      var k :| 0 <= k < |r| && r[k] == x;
      assert idx[k] in idx;
    }
  }

  /** One step of the birthday loop keeps the result a subsequence. */
  lemma KeepStepSubsequence<B>(list: seq<Birthday<B>>, keep: bool, init: seq<B>, r: seq<B>)
    requires |list| > 0
    requires SubsequenceOf(init, Entries(list[..|list| - 1]))
    requires r == if keep then init + [list[|list| - 1].entry] else init
    ensures SubsequenceOf(r, Entries(list))
  {
    var n := |list| - 1;
    assert Entries(list)[..n] == Entries(list[..n]);
    assert keep ==> r[..|r| - 1] == init;
  }

  /** One step of the birthday loop: the entries kept from a prefix, one per
      shown position, extend to the list one row longer. */
  lemma KeepStepPositions<B>(v: Viewer, z: Zebra, settings: map<nat, int>, missing: Level,
                             list: seq<Birthday<B>>, init: seq<B>, r: seq<B>)
    requires !v.Privileged? && |list| > 0
    requires |init| == |ShownPositions(v, z, settings, missing, list[..|list| - 1])|
    requires forall k :: 0 <= k < |init| ==>
      init[k] == list[..|list| - 1][ShownPositions(v, z, settings, missing, list[..|list| - 1])[k]].entry
    requires r == if BirthdayShown(v, z, settings, missing, list[|list| - 1].userId)
                  then init + [list[|list| - 1].entry] else init
    ensures |r| == |ShownPositions(v, z, settings, missing, list)|
    ensures forall k :: 0 <= k < |r| ==> r[k] == list[ShownPositions(v, z, settings, missing, list)[k]].entry
  {
    var n := |list| - 1;
    var idx0 := ShownPositions(v, z, settings, missing, list[..n]);
    forall k | 0 <= k < |init| ensures init[k] == list[idx0[k]].entry {
      assert list[..n][idx0[k]] == list[idx0[k]];
    }
  }

  /** The loop over the birthday rows, appending each kept entry in order. */
  function KeepBirthdays<B(==)>(v: Viewer, z: Zebra, settings: map<nat, int>, missing: Level,
                            list: seq<Birthday<B>>): (r: seq<B>)
    requires !v.Privileged?
    ensures SubsequenceOf(r, Entries(list))
    ensures forall i :: 0 <= i < |list| && BirthdayShown(v, z, settings, missing, list[i].userId) ==>
      list[i].entry in r
    ensures forall x :: x in r ==>
      exists i :: 0 <= i < |list| && list[i].entry == x && BirthdayShown(v, z, settings, missing, list[i].userId)
    // position by position: the k-th kept entry is the entry at the k-th shown position
    ensures |r| == |ShownPositions(v, z, settings, missing, list)|
    ensures forall k :: 0 <= k < |r| ==> r[k] == list[ShownPositions(v, z, settings, missing, list)[k]].entry
    decreases |list|
  {
    if |list| == 0 then []
    else
      var init := KeepBirthdays(v, z, settings, missing, list[..|list| - 1]);
      var last := list[|list| - 1];
      var uid := Uid(v);
      var keep :=
        if uid == last.userId then true
        else
          var rel := Relation(z, last.userId, uid);
          rel != Foe && Admits(BirthdayLevel(settings, last.userId, missing), uid, rel);
      assert keep == BirthdayShown(v, z, settings, missing, last.userId);
      var r := if keep then init + [last.entry] else init;
      KeepStepSubsequence(list, keep, init, r);
      KeepStepPositions(v, z, settings, missing, list, init, r);
      KeptByPosition(v, z, settings, missing, list, r);
      r
  }

  /** Filters the birthday list of the board index. `settings` is the
      outcome of the query for the `bday_age` settings of the listed users. */
  function FilterBirthdays<B(==)>(s: Session, list: seq<Birthday<B>>, settings: Query<map<nat, int>>, z: Zebra): (r: seq<B>)
    ensures SubsequenceOf(r, Entries(list))
    ensures |list| == 0 || s.staff ==> r == Entries(list)
    ensures |list| > 0 && !s.staff && settings.Failed? ==> r == []
    ensures |list| > 0 && !s.staff && settings.Answered? ==>
      var v := ViewerOf(s);
      && (forall i :: 0 <= i < |list| && BirthdayShown(v, z, settings.value, Public, list[i].userId) ==>
            list[i].entry in r)
      && (forall x :: x in r ==>
            (exists i :: 0 <= i < |list| && list[i].entry == x &&
               BirthdayShown(v, z, settings.value, Public, list[i].userId)))
      && |r| == |ShownPositions(v, z, settings.value, Public, list)|
      && (forall k :: 0 <= k < |r| ==> r[k] == list[ShownPositions(v, z, settings.value, Public, list)[k]].entry)
  {
    if |list| == 0 || s.staff then
      SubsequenceReflexive(Entries(list));
      Entries(list)
    else
      match settings
      case Failed => []
      // a user without a settings row reads as null, which PHP's loose switch matches to case 0
      case Answered(m) => KeepBirthdays(ViewerOf(s), z, m, Public, list)
  }

  /** The birthday filter with a missing settings row read as Hidden, like the age filter does. */
  function FilterBirthdaysFailClosed<B(==)>(s: Session, list: seq<Birthday<B>>, settings: Query<map<nat, int>>, z: Zebra): (r: seq<B>)
    ensures SubsequenceOf(r, Entries(list))
    ensures |list| == 0 || s.staff ==> r == Entries(list)
    ensures |list| > 0 && !s.staff && settings.Failed? ==> r == []
    ensures |list| > 0 && !s.staff && settings.Answered? ==>
      forall x :: x in r ==>
        (exists i :: 0 <= i < |list| && list[i].entry == x &&
           (list[i].userId == Uid(ViewerOf(s)) || list[i].userId in settings.value))
    ensures |list| > 0 && !s.staff && settings.Answered? ==>
      var v := ViewerOf(s);
      && |r| == |ShownPositions(v, z, settings.value, Hidden, list)|
      && (forall k :: 0 <= k < |r| ==> r[k] == list[ShownPositions(v, z, settings.value, Hidden, list)[k]].entry)
  {
    if |list| == 0 || s.staff then
      SubsequenceReflexive(Entries(list));
      Entries(list)
    else
      match settings
      case Failed => []
      case Answered(m) => KeepBirthdays(ViewerOf(s), z, m, Hidden, list)
  }

  /** As written, a guest sees the birthday of a user who has no settings row. */
  lemma BirthdayWithoutSettingsRowShown<B>(e: B)
    ensures FilterBirthdays(Session(false, false, false, 0), [Birthday(2, e)], Answered(map[]), Zebra(map[], {})) == [e]
    ensures FilterBirthdaysFailClosed(Session(false, false, false, 0), [Birthday(2, e)], Answered(map[]), Zebra(map[], {})) == []
  {
    var list := [Birthday(2, e)];
    var z := Zebra(map[], {});
    assert ViewerOf(Session(false, false, false, 0)) == Guest;
    assert list[..0] == [];
    assert BirthdayShown(Guest, z, map[], Public, 2);
    assert ShownPositions(Guest, z, map[], Public, list) == [0];
    var shown := KeepBirthdays(Guest, z, map[], Public, list);
    assert |shown| == 1 && shown[0] == e;
    assert shown == [e];
    assert !BirthdayShown(Guest, z, map[], Hidden, 2);
    assert ShownPositions(Guest, z, map[], Hidden, list) == [];
  }

  // ---------------------------------------------------------------------
  // The three projections apply the same rule
  // ---------------------------------------------------------------------

  /** For one other user with a `bday_age` setting, the age on the profile
      page, the entry in the birthday list and the `bday_age` column of the
      profile-field filter are shown or hidden together. */
  lemma ProjectionsAgree<B>(s: Session, pid: nat, t: Table, z: Zebra, age: string, e: B, original: FieldData)
    requires !s.staff
    requires Uid(ViewerOf(s)) != pid
    requires pid in t && BdayColumn in t[pid]
    requires age != ""
    ensures FilterAge(s, pid, age, Answered(BdaySetting(t, pid)), z) == age
      <==> FilterBirthdays(s, [Birthday(pid, e)], Answered(map[pid := t[pid][BdayColumn]]), z) == [e]
    ensures FilterAge(s, pid, age, Answered(BdaySetting(t, pid)), z) == age
      <==> (var r := FilterProfileFields(s, [pid], original, Answered(t), z); pid in r && BdayColumn in r[pid])
  {
    var list := [Birthday(pid, e)];
    assert list[..0] == [];
    assert pid in [pid];
  }
}
