/** `DatabaseManager`: the users table (one row per user id, with a banned
    flag) and the conversions log, held in memory instead of SQLite. */
module Registry {

  type UserId = int

  /** The profile columns `add_user` writes. */
  datatype Profile = Profile(username: string, firstName: string, lastName: string)

  /** A row of the users table; `is_banned` is 0 or 1 in the database. The
      join and activity timestamps are not modelled. */
  datatype UserRow = UserRow(profile: Profile, banned: bool)

  /** A row of the conversions table. */
  datatype ConversionEvent = ConversionEvent(user: UserId, fileCount: nat)

  /** What `get_stats` returns. */
  datatype Stats = Stats(totalUsers: nat, bannedUsers: nat, activeUsers: int, totalConversions: nat)

  function BannedIds(users: map<UserId, UserRow>): set<UserId> {
    set u | u in users && users[u].banned
  }

  /** The ids `get_all_user_ids` selects: `WHERE is_banned = 0`. */
  function ActiveIds(users: map<UserId, UserRow>): set<UserId> {
    set u | u in users && !users[u].banned
  }

  /** Every user is either banned or active, never both, so the number of
      active users is the total minus the banned ones. */
  lemma {:induction false} ActiveIsTotalMinusBanned(users: map<UserId, UserRow>)
    ensures |ActiveIds(users)| == |users| - |BannedIds(users)|
  {
    assert users.Keys == ActiveIds(users) + BannedIds(users);
    assert ActiveIds(users) !! BannedIds(users);
  }

  predicate Distinct(s: seq<UserId>) {
    forall i, j | 0 <= i < j < |s| :: s[i] != s[j]
  }

  function Elements(s: seq<UserId>): set<UserId> {
    set x | x in s
  }

  /** Dropping the last element keeps a sequence free of repetitions, and
      that element is not among the rest. */
  lemma DistinctInit(s: seq<UserId>)
    requires Distinct(s) && s != []
    ensures Distinct(s[..|s| - 1]) && s[|s| - 1] !in Elements(s[..|s| - 1])
  {
  }

  lemma ElementsSnoc(s: seq<UserId>)
    requires s != []
    ensures Elements(s) == Elements(s[..|s| - 1]) + {s[|s| - 1]}
  {
  }

  /** A sequence without repetitions has as many elements as its set. */
  lemma {:induction false} DistinctCardinality(s: seq<UserId>)
    requires Distinct(s)
    ensures |Elements(s)| == |s|
  {
    if s != [] {
      var t := s[..|s| - 1];
      DistinctInit(s);
      DistinctCardinality(t);
      ElementsSnoc(s);
    }
  }

  lemma HasMember(s: set<UserId>)
    requires s != {}
    ensures exists x :: x in s
  {
    if forall x :: x !in s {
      assert false;
    }
  }

  class Database {
    var users: map<UserId, UserRow>
    var conversions: seq<ConversionEvent>

    /** `DatabaseManager(db_path)` with `init_database`: `CREATE TABLE IF NOT
        EXISTS` keeps whatever rows the database file already holds, so the
        tables are those found on disk (empty for a new file). */
    constructor (users0: map<UserId, UserRow>, conversions0: seq<ConversionEvent>)
      ensures users == users0 && conversions == conversions0
    {
      users := users0;
      conversions := conversions0;
    }

    /** `is_banned`: a missing row reads as not banned. */
    predicate IsBanned(id: UserId)
      reads this
      ensures IsBanned(id) <==> id in BannedIds(users)
      ensures id !in users ==> !IsBanned(id)
    {
      id in users && users[id].banned
    }

    /** `add_user`: `INSERT OR REPLACE` writes a whole new row, so the banned
        flag returns to its default 0 even for a banned user. */
    method AddUser(id: UserId, profile: Profile)
      modifies this
      ensures users == old(users)[id := UserRow(profile, false)]
      ensures conversions == old(conversions)
      ensures !IsBanned(id)
    {
      users := users[id := UserRow(profile, false)];
    }

    /** `ban_user`: true iff the row exists (the UPDATE matched it), whether
        or not it was banned already. */
    method BanUser(id: UserId) returns (found: bool)
      modifies this
      ensures found <==> id in old(users)
      ensures users == if found then old(users)[id := old(users)[id].(banned := true)] else old(users)
      ensures conversions == old(conversions)
    {
      found := id in users;
      if found {
        users := users[id := users[id].(banned := true)];
      }
    }

    /** `unban_user`: true iff the row exists. */
    method UnbanUser(id: UserId) returns (found: bool)
      modifies this
      ensures found <==> id in old(users)
      ensures users == if found then old(users)[id := old(users)[id].(banned := false)] else old(users)
      ensures conversions == old(conversions)
    {
      found := id in users;
      if found {
        users := users[id := users[id].(banned := false)];
      }
    }

    /** `get_stats`: the active count is computed as total minus banned and
        equals the number of users who are not banned; the conversion total
        counts logged events, not files. */
    method GetStats() returns (s: Stats)
      ensures s.totalUsers == |users| && s.bannedUsers == |BannedIds(users)|
      ensures s.activeUsers == |ActiveIds(users)|
      ensures s.totalConversions == |conversions|
    {
      var total := |users|;
      var banned := |BannedIds(users)|;
      ActiveIsTotalMinusBanned(users);
      s := Stats(total, banned, total - banned, |conversions|);
    }

    /** `log_conversion`: appends one event. */
    method LogConversion(id: UserId, fileCount: nat)
      modifies this
      ensures conversions == old(conversions) + [ConversionEvent(id, fileCount)]
      ensures users == old(users)
    {
      conversions := conversions + [ConversionEvent(id, fileCount)];
    }

    /** `get_all_user_ids`: every user who is not banned, each once. The
        query has no ORDER BY, so the order is left open. */
    method GetAllUserIds() returns (ids: seq<UserId>)
      ensures Distinct(ids)
      ensures forall u :: u in ids <==> u in ActiveIds(users)
      ensures Elements(ids) == ActiveIds(users)
      ensures |ids| == |ActiveIds(users)|
    {
      ids := [];
      var rest := users.Keys;
      while rest != {}
        invariant rest <= users.Keys
        invariant Distinct(ids)
        invariant forall u :: u in ids <==> u in users && u !in rest && !users[u].banned
        decreases rest
      {
        HasMember(rest);
        var id :| id in rest;
        if !users[id].banned {
          ids := ids + [id];
        }
        rest := rest - {id};
      }
      assert Elements(ids) == ActiveIds(users) by {
        assert forall u :: u in Elements(ids) <==> u in ids;
        assert forall u :: u in ActiveIds(users) <==> u in users && !users[u].banned;
      }
      DistinctCardinality(ids);
    }
  }
}
