/** The Telegram user list in NVS (src/telegram_users.cpp): the record store
    over user records; no two users may share a name or a chat id. */
module UserStore {
  import opened Text
  import opened CameraSerialize
  import opened UserSerialize
  import opened RecordStore

  const INT64_MAX := 0x7FFF_FFFF_FFFF_FFFF
  const INT64_MIN := -0x8000_0000_0000_0000

  /** strtoll: "0123" and "123" are the same chat. */
  function ChatId(s: string): int { StrTo(s, INT64_MIN, INT64_MAX) }

  predicate SameIdentity(a: TelegramUser, b: TelegramUser)
  {
    EqualsIgnoreCase(a.name, b.name) || ChatId(a.chatId) == ChatId(b.chatId)
  }

  /** seed stands for the Admin built from secrets.h's TELEGRAM_CHAT_ID. */
  function UserCodec(seed: seq<TelegramUser>): Codec<TelegramUser>
  {
    Codec((u: TelegramUser) => SerializeUser(u), (s: string, v: nat) => DeserializeUser(s, v),
          (u: TelegramUser) => u.name, (a: TelegramUser, b: TelegramUser) => SameIdentity(a, b),
          (users: seq<TelegramUser>) => users, USER_SCHEMA_VERSION, seed)
  }

  predicate UserFreeOf(u: TelegramUser, c: char)
  {
    c !in u.name && c !in u.chatId && forall i :: 0 <= i < |u.cameraNames| ==> c !in u.cameraNames[i]
  }

  lemma UserFieldsFreeOf(u: TelegramUser, c: char)
    requires UserFreeOf(u, c) && !IsDigit(c) && c != FIELD_SEP && c != LIST_SEP
    requires c !in Join(StripAll(u.cameraNames), LIST_SEP)
    ensures forall i :: 0 <= i < |UserFields(u)| ==> c !in UserFields(u)[i]
  {
    hide Join;
  }

  lemma UserRecordFreeOf(u: TelegramUser, c: char)
    requires UserFreeOf(u, c) && !IsDigit(c) && c != FIELD_SEP && c != LIST_SEP
    ensures c !in SerializeUser(u)
  {
    JoinFree(StripAll(u.cameraNames), LIST_SEP, c);
    UserFieldsFreeOf(u, c);
    hide UserFields, UserFreeOf;
    JoinFree(UserFields(u), FIELD_SEP, c);
  }

  /** A user the store gives back unchanged. */
  predicate StorableUser(u: TelegramUser)
  {
    u.name != "" && u.maxCommandsPerMinute < HALF_WORD && PlainUser(u) && UserFreeOf(u, RECORD_SEP)
  }

  lemma StorableUserSurvives(u: TelegramUser, seed: seq<TelegramUser>)
    requires StorableUser(u)
    ensures Survives(UserCodec(seed), u)
  {
    UserRoundTripExactly(u);
    UserRecordFreeOf(u, RECORD_SEP);
    assert SerializeUser(u) == UserFields(u)[0] + [FIELD_SEP] + Join(UserFields(u)[1..], FIELD_SEP);
  }

  lemma AllStorableUsersSurvive(users: seq<TelegramUser>, seed: seq<TelegramUser>)
    requires forall i :: 0 <= i < |users| ==> StorableUser(users[i])
    ensures AllSurvive(UserCodec(seed), users)
  {
    forall i | 0 <= i < |users|
      ensures Survives(UserCodec(seed), users[i])
    {
      StorableUserSurvives(users[i], seed);
    }
  }
}
