/** Shared vocabulary of the profile-privacy extension: the stored privacy
    levels, the zebra (friend/foe) relationship, the viewer, and the shapes
    of the rows the listeners read from the database. */
module Privacy {

  /** A PHP value that may be null. */
  datatype Option<+T> = None | Some(value: T)

  /** The outcome of one SQL query: the driver reported an error, or it answered. */
  datatype Query<+T> = Failed | Answered(value: T)

  /** The privacy level a user stores for one column. */
  datatype Level = Public | Members | Friends | Hidden

  /** Position of a level in ascending restrictiveness (the number the settings form submits). */
  function Rank(l: Level): nat
  {
    match l
    case Public => 0
    case Members => 1
    case Friends => 2
    case Hidden => 3
  }

  /** How the listeners' `switch` reads a stored number: cases 0, 1 and 2,
      and everything else (3 and any other value) falls to Hidden. */
  function LevelOf(stored: int): (l: Level)
    ensures 0 <= stored <= 3 ==> Rank(l) == stored
    ensures stored < 0 || stored > 3 ==> l == Hidden
  {
    if stored == 0 then Public
    else if stored == 1 then Members
    else if stored == 2 then Friends
    else Hidden
  }

  /** Reading back the number a level is stored as gives the level again. */
  lemma LevelRoundTrip(l: Level)
    ensures LevelOf(Rank(l)) == l
  {
  }

  /** phpBB's ANONYMOUS user id; bots and guests are all mapped to it. */
  const GuestId: nat := 1

  /** The directed relationship from a profile owner to a viewer. */
  datatype Rel = Friend | Foe | NoRel

  /** The `friend` and `foe` flags of one phpBB zebra row, as the driver returns them. */
  datatype ZebraRow = ZebraRow(friend: string, foe: string)

  /** The zebra table keyed by (user_id, zebra_id), together with the
      lookups whose query fails. */
  datatype Zebra = Zebra(rows: map<(nat, nat), ZebraRow>, failing: set<(nat, nat)>)

  /** Classification of one zebra row: a foe flag wins over a friend flag. */
  function Classify(row: ZebraRow): (r: Rel)
    ensures r == Foe <==> row.foe == "1"
    ensures r == Friend <==> row.foe != "1" && row.friend == "1"
  {
    if row.foe == "1" then Foe
    else if row.friend == "1" then Friend
    else NoRel
  }

  /** The name of the column holding a row's owner. */
  const UserIdColumn: string := "user_id"

  /** The privacy column of the board-wide birthday/age setting. */
  const BdayColumn: string := "bday_age"

  /** One row of the privacy table: column name to stored number, `user_id` included. */
  type Row = map<string, int>

  /** The privacy table, keyed by user id. */
  type Table = map<nat, Row>

  /** The privacy table's level columns (every column except `user_id`) with their defaults. */
  type Schema = map<string, int>

  /** A profile field value as PHP holds it: a string, or null. */
  type Value = Option<string>

  /** The `field_data` of phpBB's profile-field event: user id to column to value. */
  type FieldData = map<nat, map<string, Value>>

  /** PHP's `$data[$uid]`: a missing subject reads as an empty row. */
  function Entry(data: FieldData, uid: nat): (e: map<string, Value>)
    ensures uid in data ==> e == data[uid]
    ensures uid !in data ==> e == map[]
  {
    if uid in data then data[uid] else map[]
  }

  /** PHP's `$data[$uid][$column]`: null when either key is missing. */
  function Read(data: FieldData, uid: nat, column: string): (v: Value)
    ensures column in Entry(data, uid) ==> v == Entry(data, uid)[column]
    ensures column !in Entry(data, uid) ==> v == None
  {
    var e := Entry(data, uid);
    if column in e then e[column] else None
  }

  /** The privacy column that belongs to the custom profile field `ident`. */
  function ProfileColumn(ident: string): string
  {
    "pf_" + ident
  }

  /** Distinct profile fields get distinct privacy columns, and a profile
      column never collides with `user_id` or one of the board columns. */
  lemma ProfileColumnFacts(a: string, b: string)
    ensures ProfileColumn(a) == ProfileColumn(b) <==> a == b
    ensures ProfileColumn(a) != UserIdColumn && ProfileColumn(a) != BdayColumn
    ensures ProfileColumn(a) != "online" && ProfileColumn(a) != "pm" && ProfileColumn(a) != "email"
  {
    if ProfileColumn(a) == ProfileColumn(b) {
      assert a == ProfileColumn(a)[3..];
      assert b == ProfileColumn(b)[3..];
    }
    assert ProfileColumn(a)[0] == 'p' && ProfileColumn(a)[1] == 'f' && ProfileColumn(a)[2] == '_';
    assert UserIdColumn[0] == 'u';
    assert BdayColumn[0] == 'b';
    assert "online"[0] == 'o';
    assert "pm"[1] == 'm';
    assert "email"[0] == 'e';
  }
}
