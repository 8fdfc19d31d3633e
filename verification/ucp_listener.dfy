/** Making sure a user has a row in the privacy table: when the user opens
    their profile settings, a row holding only the user id is inserted if
    none exists, so every level column starts at its column default. */
module UcpListener {
  import opened Privacy
  import GeneralListener
  import AcpListener

  /** The row an INSERT of only `user_id` creates: every level column at its default. */
  function NewRow(schema: Schema, uid: nat): (row: Row)
    ensures row.Keys == schema.Keys + {UserIdColumn}
    ensures row[UserIdColumn] == uid
    ensures forall c :: c in schema && c != UserIdColumn ==> row[c] == schema[c]
  {
    schema[UserIdColumn := uid]
  }

  /** Inserts the settings row of `uid` if it is absent. */
  function CreateProfileEntry(schema: Schema, t: Table, uid: nat): (r: Table)
    ensures r.Keys == t.Keys + {uid}
    ensures uid in t ==> r == t
    ensures uid !in t ==> r[uid] == NewRow(schema, uid)
    ensures forall p :: p in t && p != uid ==> r[p] == t[p]
  {
    if uid in t then t else t[uid := NewRow(schema, uid)]
  }

  /** Ensuring the row twice is ensuring it once. */
  lemma CreateProfileEntryIdempotent(schema: Schema, t: Table, uid: nat)
    ensures CreateProfileEntry(schema, CreateProfileEntry(schema, t, uid), uid) == CreateProfileEntry(schema, t, uid)
  {
  }

  /** A row inserted after a profile field was created holds Members for that field. */
  lemma NewRowStartsAtMembers(ident: string, schema: Schema, t: Table, uid: nat)
    requires uid !in t
    ensures LevelOf(CreateProfileEntry(AcpListener.ModifyProfileColumns("create", ident, schema), t, uid)[uid][ProfileColumn(ident)])
            == Members
  {
    ProfileColumnFacts(ident, ident);
  }

  /** Once the row exists, a registered user viewing their own profile gets
      every one of their own fields back from the profile-field filter. */
  lemma EntryEnablesSelfView(s: GeneralListener.Session, schema: Schema, t: Table,
                             original: FieldData, z: Zebra)
    requires !s.staff && s.registered && !s.bot
    ensures var r := GeneralListener.FilterProfileFields(s, [s.id], original, Answered(CreateProfileEntry(schema, t, s.id)), z);
      s.id in r && forall c :: c in Entry(original, s.id) ==> c in r[s.id] && r[s.id][c] == Entry(original, s.id)[c]
  {
    assert s.id in [s.id];
  }
}
