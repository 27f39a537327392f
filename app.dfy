/**
 * The moderation rules of app.py: users who register, log in, edit their
 * profile and may be blocked by an administrator, and records that users
 * submit for approval and administrators create, edit and approve. The
 * database is a store of two tables keyed by id; Flask's request and
 * session handling is reduced to the id of the logged-in user and the
 * submitted form values.
 */
module App {
  import opened PyStr
  import opened Drawing
  import CG = CardGenerator

  /** A row of the `user` table. */
  datatype User = User(
    id: nat, firstName: string, middleName: string, lastName: string,
    email: string, phone: Option<string>, passwordHash: string,
    role: string, isBlocked: bool)

  const UserRole := "user"
  const AdminRole := "admin"

  /** `User.is_active`: a user may log in unless blocked. */
  predicate IsActive(u: User) {
    !u.isBlocked
  }

  /** A row of the `record` table (the timestamps and the conflict note are not modelled). */
  datatype Record = Record(
    id: nat, fullName: string,
    birthDate: Option<string>, deathDate: Option<string>, photoPath: Option<string>,
    description: Option<string>, burialPlace: Option<string>, awards: Option<string>,
    militaryService: Option<string>, status: string)

  const Pending := "pending"
  const Approved := "approved"

  /** An entry of the action log: who did what. */
  datatype LogEntry = LogEntry(userId: nat, action: string)

  /** `[strip(p) for p in parts]` */
  function StripAll(parts: seq<string>): (r: seq<string>)
    ensures |r| == |parts| && forall i :: 0 <= i < |parts| ==> r[i] == Strip(parts[i])
  {
    seq(|parts|, i requires 0 <= i < |parts| => Strip(parts[i]))
  }

  /** A string with no whitespace at either end, as `strip` leaves it. */
  predicate Stripped(s: string) {
    s == [] || (!IsSpace(s[0]) && !IsSpace(s[|s| - 1]))
  }

  /**
   * `r` is, piece by piece, what `text` holds between its commas, each
   * piece stripped: `text` is the comma-join of comma-free `parts` and
   * `r[i]` is `parts[i]` stripped.
   */
  ghost predicate StrippedPiecesOf(text: string, r: seq<string>) {
    exists parts: seq<string> ::
      && |parts| == |r| && Join(parts, [',']) == text
      && forall i :: 0 <= i < |r| ==> ',' !in parts[i] && r[i] == Strip(parts[i])
  }

  /**
   * `Record.get_awards_list`: no awards for `None` or "", otherwise one
   * stripped award per comma-separated piece, empty pieces included.
   */
  function GetAwardsList(awards: Option<string>): (r: seq<string>)
    ensures awards.None? || awards == Some("") ==> r == []
    ensures awards.Some? && awards.value != "" ==> |r| == Count(',', awards.value) + 1
    ensures forall i :: 0 <= i < |r| ==> ',' !in r[i] && Stripped(r[i])
    ensures awards.Some? && awards.value != "" ==> StrippedPiecesOf(awards.value, r)
  {
    if awards.Some? && awards.value != "" then
      var parts := Split(awards.value, ',');
      SplitPieces(awards.value);
      StripAll(parts)
    else []
  }

  /** The stripped pieces of a split are comma-free and are what the text holds between its commas. */
  lemma SplitPieces(text: string)
    ensures var r := StripAll(Split(text, ','));
      && (forall i :: 0 <= i < |r| ==> ',' !in r[i] && Stripped(r[i]))
      && StrippedPiecesOf(text, r)
  {
    StrippedPiecesAreCommaFree(Split(text, ','));
    JoinSplit(text, ',');
    StrippedSplit(text, Split(text, ','), StripAll(Split(text, ',')));
  }

  /** The text is the comma-join of its pieces, and the stripped pieces are the stripped split. */
  lemma StrippedSplit(text: string, parts: seq<string>, r: seq<string>)
    requires parts == Split(text, ',') && Join(parts, [',']) == text && r == StripAll(parts)
    ensures StrippedPiecesOf(text, r)
  {
    assert |parts| == |r|;
  }

  /** Stripping comma-free pieces leaves them comma-free. */
  lemma StrippedPiecesAreCommaFree(parts: seq<string>)
    requires forall i :: 0 <= i < |parts| ==> ',' !in parts[i]
    ensures forall i :: 0 <= i < |parts| ==> ',' !in StripAll(parts)[i] && Stripped(StripAll(parts)[i])
  {
    forall i | 0 <= i < |parts| ensures ',' !in StripAll(parts)[i] {
      StripKeepsOut(parts[i], ',');
    }
  }

  /**
   * Awards typed as a list joined with ", " are read back as that list,
   * whenever the awards carry no comma and no surrounding whitespace and
   * the text is not empty.
   */
  lemma AwardsRoundTrip(items: seq<string>)
    requires |items| > 0 && items != [""]
    requires forall i :: 0 <= i < |items| ==> ',' !in items[i] && Stripped(items[i])
    ensures GetAwardsList(Some(Join(items, ", "))) == items
  {
    CommaSpace();
    PaddedAwardsRoundTrip(items, ", ");
  }

  /** ", " is a comma followed by a blank padding. */
  lemma CommaSpace()
    ensures ", " == [','] + " "
  {
  }

  /** `AwardsRoundTrip` for any separator made of a comma and blank padding. */
  lemma PaddedAwardsRoundTrip(items: seq<string>, sep: string)
    requires |items| > 0 && items != [""]
    requires forall i :: 0 <= i < |items| ==> ',' !in items[i] && Stripped(items[i])
    requires sep == [','] + " "
    ensures GetAwardsList(Some(Join(items, sep))) == items
  {
    JoinNotEmpty(items, sep);
    PaddedRoundTrip(items, ',', " ");
  }

  /** Joining a list that is neither empty nor a single "" gives a non-empty text. */
  lemma JoinNotEmpty(items: seq<string>, sep: string)
    requires |items| > 0 && items != [""] && sep != []
    ensures Join(items, sep) != []
  {
    if |items| == 1 {
      assert items == [items[0]];
    } else {
      assert |Join(items, sep)| >= |sep|;
    }
  }

  /**
   * Splitting at `sep` and stripping undoes joining with `sep` and blank
   * padding, for items without `sep` and without surrounding whitespace.
   */
  lemma PaddedRoundTrip(items: seq<string>, sep: char, pad: string)
    requires |items| > 0 && sep !in pad && IsBlank(pad)
    requires forall i :: 0 <= i < |items| ==> sep !in items[i] && Stripped(items[i])
    ensures StripAll(Split(Join(items, [sep] + pad), sep)) == items
  {
    SplitJoinPadded(items, sep, pad);
    var parts := Split(Join(items, [sep] + pad), sep);
    forall i | 0 <= i < |items| ensures Strip(parts[i]) == items[i] {
      StripPadded(pad, parts[i], items[i], i > 0);
    }
  }

  /** A stripped item, preceded by blank padding or not, is what stripping gives back. */
  lemma StripPadded(pad: string, part: string, item: string, padded: bool)
    requires IsBlank(pad) && Stripped(item)
    requires part == if padded then pad + item else item
    ensures Strip(part) == item
  {
    if padded {
      StripBlankPrefix(pad, item);
    }
  }

  /** Where `role_required` and `login_required` send a request. */
  datatype Access = ToLogin | ToIndex | Granted

  /**
   * `role_required(roles)`: an anonymous visitor is sent to the login
   * page, a user whose role is not listed to the index page, and only
   * otherwise does the view run.
   */
  function RoleRequired(current: Option<User>, roles: seq<string>): (a: Access)
    ensures a == ToLogin <==> current.None?
    ensures a == ToIndex <==> current.Some? && current.value.role !in roles
    ensures a == Granted <==> current.Some? && current.value.role in roles
  {
    if current.None? then ToLogin
    else if current.value.role !in roles then ToIndex
    else Granted
  }

  /** `login_required`: only an anonymous visitor is sent to the login page. */
  function LoginRequired(current: Option<User>): (a: Access)
    ensures a != ToIndex
    ensures a == Granted <==> current.Some?
  {
    if current.None? then ToLogin else Granted
  }

  /** No two users share an e-mail address (the column is declared unique). */
  predicate UniqueEmails(users: map<nat, User>) {
    forall a, b :: a in users && b in users && users[a].email == users[b].email ==> a == b
  }

  predicate EmailTaken(users: map<nat, User>, email: string) {
    exists id :: id in users && users[id].email == email
  }

  /** `User.query.filter_by(email=email).first()` */
  function UserWithEmail(users: map<nat, User>, email: string): (r: Option<nat>)
    requires UniqueEmails(users)
    ensures r.Some? <==> EmailTaken(users, email)
    ensures r.Some? ==> r.value in users && users[r.value].email == email
  {
    if EmailTaken(users, email) then
      var id :| id in users && users[id].email == email;
      Some(id)
    else None
  }

  datatype LoginResult = Blocked | BadCredentials | LoggedIn(userId: nat)

  /**
   * The decision of `login`: the user with that e-mail is refused when
   * blocked, whatever the password, and logged in when active and the
   * password checks; anything else is a wrong e-mail or password.
   */
  function Login(users: map<nat, User>, email: string, password: string, checkPassword: (string, string) -> bool): (r: LoginResult)
    requires UniqueEmails(users)
    ensures r == Blocked <==> exists id :: id in users && users[id].email == email && users[id].isBlocked
    ensures r.LoggedIn? <==>
      exists id :: id in users && users[id].email == email && IsActive(users[id]) && checkPassword(users[id].passwordHash, password)
    ensures r.LoggedIn? ==> r.userId in users && users[r.userId].email == email && IsActive(users[r.userId])
  {
    match UserWithEmail(users, email)
    case None => BadCredentials
    case Some(id) =>
      if users[id].isBlocked then Blocked
      else if checkPassword(users[id].passwordHash, password) then LoggedIn(id)
      else BadCredentials
  }

  /** A blocked user is refused whatever password is given. */
  lemma BlockedNeverLogsIn(users: map<nat, User>, id: nat, password: string, checkPassword: (string, string) -> bool)
    requires UniqueEmails(users) && id in users && users[id].isBlocked
    ensures Login(users, users[id].email, password, checkPassword) == Blocked
  {
  }

  /** The block flag of one user flipped, everything else as it was. */
  function Toggled(users: map<nat, User>, id: nat): (r: map<nat, User>)
    requires id in users
    ensures r.Keys == users.Keys && r[id].isBlocked == !users[id].isBlocked
    ensures forall k :: k in users && k != id ==> r[k] == users[k]
    ensures r[id] == users[id].(isBlocked := r[id].isBlocked)
  {
    users[id := users[id].(isBlocked := !users[id].isBlocked)]
  }

  /** Blocking or unblocking a user flips whether that user may log in, and no one else's. */
  lemma ToggleFlipsActive(users: map<nat, User>, id: nat)
    requires id in users
    ensures IsActive(Toggled(users, id)[id]) <==> !IsActive(users[id])
    ensures forall k :: k in users && k != id ==> IsActive(Toggled(users, id)[k]) == IsActive(users[k])
  {
  }

  /** Blocking twice restores the users. */
  lemma ToggleTwice(users: map<nat, User>, id: nat)
    requires id in users
    ensures Toggled(Toggled(users, id), id) == users
  {
    var twice := Toggled(Toggled(users, id), id);
    assert forall k :: k in users ==> twice[k] == users[k];
  }

  /** Blocking keeps every e-mail where it was. */
  lemma ToggleKeepsEmails(users: map<nat, User>, id: nat)
    requires id in users && UniqueEmails(users)
    ensures UniqueEmails(Toggled(users, id))
  {
    var r := Toggled(users, id);
    assert forall k :: k in r ==> r[k].email == users[k].email;
  }

  /** The submitted form fields of a record; a field that was not sent is `None`. */
  datatype RecordForm = RecordForm(
    fullName: Option<string>, birthDate: Option<string>, deathDate: Option<string>,
    description: Option<string>, burialPlace: Option<string>, awards: Option<string>,
    militaryService: Option<string>)

  /** Why a request changed nothing. */
  datatype Reason = SelfBlock | NotPending | EmailInUse | WrongRole | MissingFullName

  datatype Outcome = Denied(access: Access) | NotFound | Refused(reason: Reason) | Done(id: nat)

  /** The record a form describes, with the given id, photo path and status. */
  function RecordOf(id: nat, form: RecordForm, photoPath: Option<string>, status: string): (r: Record)
    requires form.fullName.Some?
    ensures r.id == id && r.fullName == form.fullName.value && r.photoPath == photoPath && r.status == status
    ensures r.awards == form.awards && r.birthDate == form.birthDate && r.deathDate == form.deathDate
    ensures r.description == form.description && r.burialPlace == form.burialPlace
    ensures r.militaryService == form.militaryService
  {
    Record(id, form.fullName.value, form.birthDate, form.deathDate, photoPath,
           form.description, form.burialPlace, form.awards, form.militaryService, status)
  }

  /** What the action log says when a user is blocked or unblocked. */
  function BlockMessage(email: string, blocked: bool): string {
    "Пользователь " + email + " " + (if blocked then "заблокирован" else "разблокирован")
  }

  /** The `Value` of a nullable column in the card's dictionary. */
  function ValueOf(o: Option<string>): Value {
    match o
    case None => NoneVal
    case Some(s) => Str(s)
  }

  /** The dictionary `generate_card` hands to the renderer for a record. */
  function CardDataOf(r: Record): (data: CardData)
    ensures WellFormed(data)
    ensures "full_name" in data && "birth_date" in data && "death_date" in data && "photo_path" in data
    ensures "description" in data && "burial_place" in data && "awards" in data && "military_service" in data
    ensures Get(data, "full_name") == Str(r.fullName)
    ensures Get(data, "birth_date") == ValueOf(r.birthDate)
    ensures Get(data, "death_date") == ValueOf(r.deathDate)
    ensures Get(data, "photo_path") == ValueOf(r.photoPath)
    ensures Get(data, "description") == ValueOf(r.description)
    ensures Get(data, "burial_place") == ValueOf(r.burialPlace)
    ensures Get(data, "awards") == List(GetAwardsList(r.awards))
    ensures Get(data, "military_service") == ValueOf(r.militaryService)
  {
    map[
      "full_name" := Str(r.fullName),
      "birth_date" := ValueOf(r.birthDate),
      "death_date" := ValueOf(r.deathDate),
      "photo_path" := ValueOf(r.photoPath),
      "description" := ValueOf(r.description),
      "burial_place" := ValueOf(r.burialPlace),
      "awards" := List(GetAwardsList(r.awards)),
      "military_service" := ValueOf(r.militaryService)]
  }

  /**
   * Every record can be rendered: its name is never `None`, so the card is
   * drawn exactly when the background and the photo or the placeholder
   * open.
   */
  lemma RecordCardRenders(r: Record, env: Env)
    ensures var data := CardDataOf(r);
      CG.Plan(data, env).Rendered? <==> env.loadable(CG.BackgroundPath) && CG.PhotoSource(data, env.loadable).Some?
  {
    CG.PlanOutcome(CardDataOf(r), env);
  }

  /** The database: the user and record tables, the action log, and the next ids to hand out. */
  class Store {
    var users: map<nat, User>
    var records: map<nat, Record>
    var logs: seq<LogEntry>
    var nextUserId: nat
    var nextRecordId: nat

    /** Rows are stored under their own ids, below the next id, and e-mails are unique. */
    ghost predicate Valid()
      reads this
    {
      && (forall id :: id in users ==> users[id].id == id && id < nextUserId)
      && (forall id :: id in records ==> records[id].id == id && id < nextRecordId)
      && UniqueEmails(users)
    }

    constructor ()
      ensures Valid() && users == map[] && records == map[] && logs == []
      ensures nextUserId == 1 && nextRecordId == 1
    {
      users := map[];
      records := map[];
      logs := [];
      nextUserId := 1;
      nextRecordId := 1;
    }

    /** `current_user`: the logged-in user, if the session names one that exists. */
    function Current(session: Option<nat>): Option<User>
      reads this
    {
      if session.Some? && session.value in users then Some(users[session.value]) else None
    }

    /**
     * `register`: a new active user with role "user" is added unless the
     * e-mail is already taken.
     */
    method Register(email: string, firstName: string, middleName: string, lastName: string,
                    phone: Option<string>, passwordHash: string) returns (r: Option<nat>)
      requires Valid()
      modifies this
      ensures Valid()
      ensures r.None? <==> EmailTaken(old(users), email)
      ensures r.None? ==> users == old(users) && nextUserId == old(nextUserId)
      ensures r.Some? ==> (r.value == old(nextUserId) && nextUserId == old(nextUserId) + 1
        && users == old(users)[r.value := User(r.value, firstName, middleName, lastName, email, phone, passwordHash, UserRole, false)])
      ensures records == old(records) && logs == old(logs) && nextRecordId == old(nextRecordId)
    {
      var existing := UserWithEmail(users, email);
      if existing.Some? {
        return None;
      }
      var id := nextUserId;
      users := users[id := User(id, firstName, middleName, lastName, email, phone, passwordHash, UserRole, false)];
      nextUserId := nextUserId + 1;
      r := Some(id);
    }

    /**
     * `toggle_user_block`: an administrator flips another user's block
     * flag and the action is logged; blocking oneself is refused.
     */
    method ToggleUserBlock(session: Option<nat>, userId: nat) returns (r: Outcome)
      requires Valid()
      modifies this
      ensures Valid()
      ensures var access := RoleRequired(old(Current(session)), [AdminRole]);
        && (access != Granted ==> r == Denied(access))
        && (access == Granted && session.value == userId ==> r == Refused(SelfBlock))
        && (access == Granted && session.value != userId && userId !in old(users) ==> r == NotFound)
        && (access == Granted && session.value != userId && userId in old(users) ==> r == Done(userId))
      ensures r.Done? ==> (users == Toggled(old(users), userId)
        && logs == old(logs) + [LogEntry(session.value, BlockMessage(users[userId].email, users[userId].isBlocked))])
      ensures !r.Done? ==> users == old(users) && logs == old(logs)
      ensures records == old(records) && nextUserId == old(nextUserId) && nextRecordId == old(nextRecordId)
    {
      var access := RoleRequired(Current(session), [AdminRole]);
      if access != Granted {
        return Denied(access);
      }
      var current := session.value;
      if current == userId {
        return Refused(SelfBlock);
      }
      if userId !in users {
        return NotFound;
      }
      var user := users[userId];
      user := user.(isBlocked := !user.isBlocked);
      users := users[userId := user];
      ToggleKeepsEmails(old(users), userId);
      logs := logs + [LogEntry(current, BlockMessage(user.email, user.isBlocked))];
      r := Done(userId);
    }

    /** `approve_record`: an administrator approves a pending record; any other status is left alone. */
    method ApproveRecord(session: Option<nat>, recordId: nat) returns (r: Outcome)
      requires Valid()
      modifies this
      ensures Valid()
      ensures var access := RoleRequired(old(Current(session)), [AdminRole]);
        && (access != Granted ==> r == Denied(access))
        && (access == Granted && recordId !in old(records) ==> r == NotFound)
        && (access == Granted && recordId in old(records) && old(records)[recordId].status != Pending ==> r == Refused(NotPending))
        && (access == Granted && recordId in old(records) && old(records)[recordId].status == Pending ==> r == Done(recordId))
      ensures r.Done? ==> records == old(records)[recordId := old(records)[recordId].(status := Approved)]
      ensures !r.Done? ==> records == old(records)
      ensures users == old(users) && logs == old(logs) && nextUserId == old(nextUserId) && nextRecordId == old(nextRecordId)
    {
      var access := RoleRequired(Current(session), [AdminRole]);
      if access != Granted {
        return Denied(access);
      }
      if recordId !in records {
        return NotFound;
      }
      var record := records[recordId];
      if record.status != Pending {
        return Refused(NotPending);
      }
      records := records[recordId := record.(status := Approved)];
      r := Done(recordId);
    }

    /**
     * `edit_record`: an administrator replaces every field of a record
     * from the form; the photo changes only when a file was uploaded.
     * A form without a name is rejected by the database.
     */
    method EditRecord(session: Option<nat>, recordId: nat, form: RecordForm, upload: Option<string>) returns (r: Outcome)
      requires Valid()
      modifies this
      ensures Valid()
      ensures var access := RoleRequired(old(Current(session)), [AdminRole]);
        && (access != Granted ==> r == Denied(access))
        && (access == Granted && recordId !in old(records) ==> r == NotFound)
        && (access == Granted && recordId in old(records) && form.fullName.None? ==> r == Refused(MissingFullName))
        && (access == Granted && recordId in old(records) && form.fullName.Some? ==> r == Done(recordId))
      ensures r.Done? ==> var before := old(records)[recordId];
        records == old(records)[recordId := RecordOf(recordId, form, if upload.Some? then upload else before.photoPath, before.status)]
      ensures !r.Done? ==> records == old(records)
      ensures users == old(users) && logs == old(logs) && nextUserId == old(nextUserId) && nextRecordId == old(nextRecordId)
    {
      var access := RoleRequired(Current(session), [AdminRole]);
      if access != Granted {
        return Denied(access);
      }
      if recordId !in records {
        return NotFound;
      }
      if form.fullName.None? {
        return Refused(MissingFullName);
      }
      var record := records[recordId];
      var photoPath := record.photoPath;
      if upload.Some? {
        photoPath := upload;
      }
      records := records[recordId := RecordOf(recordId, form, photoPath, record.status)];
      r := Done(recordId);
    }

    /** `create_record`: a record created by an administrator is approved at once. */
    method CreateRecord(session: Option<nat>, form: RecordForm, upload: Option<string>) returns (r: Outcome)
      requires Valid()
      modifies this
      ensures Valid()
      ensures var access := RoleRequired(old(Current(session)), [AdminRole]);
        && (access != Granted ==> r == Denied(access))
        && (access == Granted && form.fullName.None? ==> r == Refused(MissingFullName))
        && (access == Granted && form.fullName.Some? ==> r == Done(old(nextRecordId)))
      ensures r.Done? ==> (nextRecordId == old(nextRecordId) + 1
        && records == old(records)[r.id := RecordOf(r.id, form, upload, Approved)])
      ensures !r.Done? ==> records == old(records) && nextRecordId == old(nextRecordId)
      ensures users == old(users) && logs == old(logs) && nextUserId == old(nextUserId)
    {
      var access := RoleRequired(Current(session), [AdminRole]);
      if access != Granted {
        return Denied(access);
      }
      if form.fullName.None? {
        return Refused(MissingFullName);
      }
      var id := nextRecordId;
      records := records[id := RecordOf(id, form, upload, Approved)];
      nextRecordId := nextRecordId + 1;
      r := Done(id);
    }

    /**
     * `create_user_record`: only a logged-in user with role "user" may
     * submit a record, which waits for approval.
     */
    method CreateUserRecord(session: Option<nat>, form: RecordForm, upload: Option<string>) returns (r: Outcome)
      requires Valid()
      modifies this
      ensures Valid()
      ensures var current := old(Current(session));
        && (current.None? ==> r == Denied(ToLogin))
        && (current.Some? && current.value.role != UserRole ==> r == Refused(WrongRole))
        && (current.Some? && current.value.role == UserRole && form.fullName.None? ==> r == Refused(MissingFullName))
        && (current.Some? && current.value.role == UserRole && form.fullName.Some? ==> r == Done(old(nextRecordId)))
      ensures r.Done? ==> (nextRecordId == old(nextRecordId) + 1
        && records == old(records)[r.id := RecordOf(r.id, form, upload, Pending)])
      ensures !r.Done? ==> records == old(records) && nextRecordId == old(nextRecordId)
      ensures users == old(users) && logs == old(logs) && nextUserId == old(nextUserId)
    {
      var access := LoginRequired(Current(session));
      if access != Granted {
        return Denied(access);
      }
      var current := Current(session).value;
      if current.role != UserRole {
        return Refused(WrongRole);
      }
      if form.fullName.None? {
        return Refused(MissingFullName);
      }
      var id := nextRecordId;
      records := records[id := RecordOf(id, form, upload, Pending)];
      nextRecordId := nextRecordId + 1;
      r := Done(id);
    }

    /**
     * `profile`: a logged-in user updates their names, e-mail and phone,
     * unless the new e-mail belongs to another user.
     */
    method Profile(session: Option<nat>, email: string, firstName: string, middleName: string,
                   lastName: string, phone: Option<string>) returns (r: Outcome)
      requires Valid()
      modifies this
      ensures Valid()
      ensures var current := old(Current(session));
        && (current.None? ==> r == Denied(ToLogin))
        && (current.Some? && email != current.value.email && EmailTaken(old(users), email) ==> r == Refused(EmailInUse))
        && (current.Some? && (email == current.value.email || !EmailTaken(old(users), email)) ==> r == Done(session.value))
      ensures r.Done? ==> var u := old(users)[r.id];
        users == old(users)[r.id := u.(firstName := firstName, middleName := middleName, lastName := lastName, email := email, phone := phone)]
      ensures !r.Done? ==> users == old(users)
      ensures records == old(records) && logs == old(logs) && nextUserId == old(nextUserId) && nextRecordId == old(nextRecordId)
    {
      var access := LoginRequired(Current(session));
      if access != Granted {
        return Denied(access);
      }
      var id := session.value;
      var user := users[id];
      if email != user.email {
        var holder := UserWithEmail(users, email);
        if holder.Some? && holder.value != id {
          return Refused(EmailInUse);
        }
      }
      users := users[id := user.(firstName := firstName, middleName := middleName, lastName := lastName, email := email, phone := phone)];
      r := Done(id);
    }
  }
}
