/** One Telegram user record: 12 fields, one of them a list of camera names
    with its own separator (lib/telegram_user_serialize). */
module UserSerialize {
  import opened Text
  import opened CameraSerialize

  const LIST_SEP: char := '\U{1D}'
  const USER_SCHEMA_VERSION: nat := 6

  datatype TelegramLang = English | Portuguese

  datatype TelegramUser = TelegramUser(
    name: string, chatId: string, allCameras: bool, cameraNames: seq<string>,
    systemMessages: bool, canCommand: bool, canSnap: bool, canReset: bool,
    maxCommandsPerMinute: nat, language: TelegramLang, canBackup: bool, canRestore: bool)

  const NOBODY := TelegramUser("", "", false, [], false, false, false, false, 0, English, false, false)

  function StripBoth(s: string): (r: string)
    ensures FIELD_SEP !in r && LIST_SEP !in r
    ensures FIELD_SEP !in s && LIST_SEP !in s <==> r == s
  {
    Strip(Strip(s, FIELD_SEP), LIST_SEP)
  }

  function StripAll(names: seq<string>): (r: seq<string>)
    ensures |r| == |names|
    ensures forall i :: 0 <= i < |r| ==> r[i] == StripBoth(names[i])
  {
    seq(|names|, i requires 0 <= i < |names| => StripBoth(names[i]))
  }

  function UserField(u: TelegramUser, i: nat): (s: string)
    requires i < 12
  {
    match i
    case 0 => StripBoth(u.name)
    case 1 => StripBoth(u.chatId)
    case 2 => Bit(u.allCameras)
    case 3 => Join(StripAll(u.cameraNames), LIST_SEP)
    case 4 => Bit(u.systemMessages)
    case 5 => Bit(u.canCommand)
    case 6 => Bit(u.canSnap)
    case 7 => Bit(u.canReset)
    case 8 => Digits(u.maxCommandsPerMinute)
    case 9 => Digits(if u.language.Portuguese? then 1 else 0)
    case 10 => Bit(u.canBackup)
    case _ => Bit(u.canRestore)
  }

  function UserFields(u: TelegramUser): (f: seq<string>)
    ensures |f| == 12
  {
    seq(12, i requires 0 <= i < 12 => UserField(u, i))
  }

  function SerializeUser(u: TelegramUser): string { Join(UserFields(u), FIELD_SEP) }

  /** Empty names are dropped. */
  function SplitCameraList(field: string): seq<string> { NonEmpty(Split(field, LIST_SEP)) }

  function Lang(field: string): TelegramLang { if ToInt(field) == 1 then Portuguese else English }

  /** Version 0: 6 fields or more; canSnap is read only if present. */
  function DeserializeUserV0(f: seq<string>): TelegramUser
  {
    if |f| < 6 then NOBODY
    else
      TelegramUser(f[0], f[1], f[2] == "1", SplitCameraList(f[3]), f[4] == "1", f[5] == "1",
                   |f| >= 7 && f[6] == "1", false, 0, English, false, false)
  }

  function DeserializeUserV1(f: seq<string>): TelegramUser
  {
    if |f| != 7 then NOBODY
    else
      TelegramUser(f[0], f[1], f[2] == "1", SplitCameraList(f[3]), f[4] == "1", f[5] == "1",
                   f[6] == "1", false, 0, English, false, false)
  }

  function DeserializeUserV2(f: seq<string>): TelegramUser
  {
    if |f| != 8 then NOBODY
    else
      TelegramUser(f[0], f[1], f[2] == "1", SplitCameraList(f[3]), f[4] == "1", f[5] == "1",
                   f[6] == "1", f[7] == "1", 0, English, false, false)
  }

  function DeserializeUserV3(f: seq<string>): TelegramUser
  {
    if |f| != 9 then NOBODY
    else
      TelegramUser(f[0], f[1], f[2] == "1", SplitCameraList(f[3]), f[4] == "1", f[5] == "1",
                   f[6] == "1", f[7] == "1", HalfWord(f[8], 0), English, false, false)
  }

  function DeserializeUserV4(f: seq<string>): TelegramUser
  {
    if |f| != 10 then NOBODY
    else
      TelegramUser(f[0], f[1], f[2] == "1", SplitCameraList(f[3]), f[4] == "1", f[5] == "1",
                   f[6] == "1", f[7] == "1", HalfWord(f[8], 0), Lang(f[9]), false, false)
  }

  function DeserializeUserV5(f: seq<string>): TelegramUser
  {
    if |f| != 11 then NOBODY
    else
      TelegramUser(f[0], f[1], f[2] == "1", SplitCameraList(f[3]), f[4] == "1", f[5] == "1",
                   f[6] == "1", f[7] == "1", HalfWord(f[8], 0), Lang(f[9]), f[10] == "1", false)
  }

  function DeserializeUserV6(f: seq<string>): TelegramUser
  {
    if |f| != 12 then NOBODY
    else
      TelegramUser(f[0], f[1], f[2] == "1", SplitCameraList(f[3]), f[4] == "1", f[5] == "1",
                   f[6] == "1", f[7] == "1", HalfWord(f[8], 0), Lang(f[9]), f[10] == "1", f[11] == "1")
  }

  function DeserializeUserFields(f: seq<string>, version: nat): TelegramUser
  {
    match version
    case 0 => DeserializeUserV0(f)
    case 1 => DeserializeUserV1(f)
    case 2 => DeserializeUserV2(f)
    case 3 => DeserializeUserV3(f)
    case 4 => DeserializeUserV4(f)
    case 5 => DeserializeUserV5(f)
    case _ => DeserializeUserV6(f)  // 6, and anything newer
  }

  function DeserializeUser(record: string, version: nat): TelegramUser
  {
    DeserializeUserFields(Split(record, FIELD_SEP), version)
  }

  /** What writing and re-reading a user makes of it. */
  function NormalizedUser(u: TelegramUser): TelegramUser
  {
    u.(name := StripBoth(u.name), chatId := StripBoth(u.chatId), cameraNames := NonEmpty(StripAll(u.cameraNames)))
  }

  predicate PlainUser(u: TelegramUser)
  {
    && StripBoth(u.name) == u.name && StripBoth(u.chatId) == u.chatId
    && forall i :: 0 <= i < |u.cameraNames| ==>
          u.cameraNames[i] != "" && StripBoth(u.cameraNames[i]) == u.cameraNames[i]
  }

  lemma SplitJoinedCameras(names: seq<string>)
    ensures SplitCameraList(Join(StripAll(names), LIST_SEP)) == NonEmpty(StripAll(names))
  {
    if names == [] {
      assert Split("", LIST_SEP) == [""];
      assert NonEmpty([""]) == NonEmpty([]);
    } else {
      SplitJoin(StripAll(names), LIST_SEP);
    }
  }

  lemma UserFieldsUnseparated(u: TelegramUser)
    ensures forall i :: 0 <= i < 12 ==> FIELD_SEP !in UserFields(u)[i]
  {
    JoinFree(StripAll(u.cameraNames), LIST_SEP, FIELD_SEP);
  }

  lemma ReadLang(l: TelegramLang)
    ensures Lang(Digits(if l.Portuguese? then 1 else 0)) == l
  {
    ToIntDecimal(0);
    ToIntDecimal(1);
  }

  lemma ReadUserFields(u: TelegramUser)
    requires u.maxCommandsPerMinute < HALF_WORD
    ensures DeserializeUserV6(UserFields(u)) == NormalizedUser(u)
  {
    hide SplitCameraList, NonEmpty, StripAll, StripBoth, HalfWord, Lang, Digits, Join;
    SplitJoinedCameras(u.cameraNames);
    ReadNumber(u.maxCommandsPerMinute, 0);
    ReadLang(u.language);
  }

  /** Writing and re-reading a user strips both separators, drops empty camera
      names and changes nothing else. */
  lemma UserRoundTrip(u: TelegramUser, version: nat)
    requires u.maxCommandsPerMinute < HALF_WORD && version >= USER_SCHEMA_VERSION
    ensures DeserializeUser(SerializeUser(u), version) == NormalizedUser(u)
  {
    UserFieldsUnseparated(u);
    hide UserFields, NormalizedUser, DeserializeUserV6;
    SplitJoin(UserFields(u), FIELD_SEP);
    ReadUserFields(u);
  }

  lemma {:induction false} NonEmptyExactly(names: seq<string>)
    ensures |NonEmpty(names)| <= |names|
    ensures NonEmpty(names) == names <==> forall i :: 0 <= i < |names| ==> names[i] != ""
  {
    if names != [] {
      NonEmptyExactly(names[1..]);
      if names[0] != "" {
        assert [names[0]] + names[1..] == names;
        assert NonEmpty(names)[1..] == NonEmpty(names[1..]);
      }
    }
  }

  lemma UserRoundTripExactly(u: TelegramUser)
    requires u.maxCommandsPerMinute < HALF_WORD
    ensures DeserializeUser(SerializeUser(u), USER_SCHEMA_VERSION) == u <==> PlainUser(u)
  {
    UserRoundTrip(u, USER_SCHEMA_VERSION);
    var stripped := StripAll(u.cameraNames);
    NonEmptyExactly(stripped);
    if PlainUser(u) {
      assert stripped == u.cameraNames;
    }
    if NonEmpty(stripped) == u.cameraNames {
      assert |NonEmpty(stripped)| == |stripped|;
      NonEmptyLength(stripped);
    }
  }

  lemma {:induction false} NonEmptyLength(names: seq<string>)
    ensures |NonEmpty(names)| == |names| ==> NonEmpty(names) == names
  {
    if names != [] {
      NonEmptyLength(names[1..]);
      NonEmptyExactly(names[1..]);
      assert [names[0]] + names[1..] == names;
    }
  }

  /** A user stored under any version, re-saved and read again, is the same user. */
  lemma UserMigrationPreserves(record: string, version: nat)
    ensures var u := DeserializeUser(record, version);
            DeserializeUser(SerializeUser(u), USER_SCHEMA_VERSION) == u
            <==> LIST_SEP !in u.name && LIST_SEP !in u.chatId
  {
    var f := Split(record, FIELD_SEP);
    var u := DeserializeUser(record, version);
    if u != NOBODY { NonEmptyPieces(f[3]); }
    assert FIELD_SEP !in u.name && FIELD_SEP !in u.chatId;
    UserRoundTripExactly(u);
  }

  lemma NonEmptyPieces(field: string)
    requires FIELD_SEP !in field
    ensures forall i :: 0 <= i < |SplitCameraList(field)| ==>
              var n := SplitCameraList(field)[i]; n != "" && StripBoth(n) == n
  {
    SplitFree(field, LIST_SEP, FIELD_SEP);
  }
}
