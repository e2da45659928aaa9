/**
  The record layer of QuickCart.py: the `UserRole` and `OrderStatus`
  enumerations with their string tags, and the `User` record with its
  constructor default and its `to_dict` / `from_dict` pair.
*/
module QuickCart {
  import opened Wrappers
  import opened EnumLookup

  // ---------------------------------------------------------------- UserRole

  datatype UserRole = Admin | User | Rider

  /** The members in declaration order, as iterating `UserRole` lists them. */
  function RoleMembers(): (ms: seq<UserRole>)
    ensures |ms| == 3
    ensures forall r: UserRole :: r in ms && ms[RoleIndex(r)] == r
    ensures forall i, j :: 0 <= i < j < |ms| ==> ms[i] != ms[j]
  {
    var ms := [Admin, UserRole.User, Rider];
    assert forall r: UserRole :: r in ms by {
      forall r: UserRole ensures r in ms {
        assert ms[RoleIndex(r)] == r;
      }
    }
    ms
  }

  /** The position of a role in declaration order. */
  function RoleIndex(r: UserRole): (i: nat)
    ensures i < 3
  {
    match r
    case Admin => 0
    case User => 1
    case Rider => 2
  }

  /** `role.value`: the canonical tag written into a record. */
  function RoleTag(r: UserRole): string
  {
    match r
    case Admin => "admin"
    case User => "user"
    case Rider => "rider"
  }

  /** `UserRole(tag)`: the role whose tag is `tag`; `None` where Python raises ValueError. */
  function ParseRole(tag: string): (r: Option<UserRole>)
    ensures forall role: UserRole :: r == Some(role) <==> RoleTag(role) == tag
    ensures r.None? <==> tag !in {"admin", "user", "rider"}
  {
    RoleTagsDistinct();
    var r := FindByValue(RoleMembers(), RoleTag, tag);
    assert forall role: UserRole :: RoleTag(role) == tag ==> r == Some(role) by {
      forall role: UserRole | RoleTag(role) == tag ensures r == Some(role) {
        FindByValueOfMember(RoleMembers(), RoleTag, RoleIndex(role));
      }
    }
    r
  }

  /** The three tags are pairwise distinct, so the tag identifies the role. */
  lemma RoleTagsDistinct()
    ensures DistinctValues(RoleMembers(), RoleTag)
    ensures forall a: UserRole, b: UserRole :: RoleTag(a) == RoleTag(b) ==> a == b
  {
  }

  /** Decoding the tag of a role gives back that role. */
  lemma ParseRoleTag(r: UserRole)
    ensures ParseRole(RoleTag(r)) == Some(r)
  {
  }

  // ------------------------------------------------------------- OrderStatus

  datatype OrderStatus = Pending | Assigned | InProgress | Delivered | Cancelled

  /** The members in declaration order, as iterating `OrderStatus` lists them. */
  function StatusMembers(): (ms: seq<OrderStatus>)
    ensures |ms| == 5
    ensures forall s: OrderStatus :: s in ms && ms[StatusIndex(s)] == s
    ensures forall i, j :: 0 <= i < j < |ms| ==> ms[i] != ms[j]
  {
    var ms := [Pending, Assigned, InProgress, Delivered, Cancelled];
    assert forall s: OrderStatus :: s in ms by {
      forall s: OrderStatus ensures s in ms {
        assert ms[StatusIndex(s)] == s;
      }
    }
    ms
  }

  /** The position of a status in declaration order. */
  function StatusIndex(s: OrderStatus): (i: nat)
    ensures i < 5
  {
    match s
    case Pending => 0
    case Assigned => 1
    case InProgress => 2
    case Delivered => 3
    case Cancelled => 4
  }

  /** `status.value`: the canonical tag written into a record. */
  function StatusTag(s: OrderStatus): string
  {
    match s
    case Pending => "pending"
    case Assigned => "assigned"
    case InProgress => "in_progress"
    case Delivered => "delivered"
    case Cancelled => "cancelled"
  }

  /** `OrderStatus(tag)`: the status whose tag is `tag`; `None` where Python raises ValueError. */
  function ParseStatus(tag: string): (r: Option<OrderStatus>)
    ensures forall s: OrderStatus :: r == Some(s) <==> StatusTag(s) == tag
    ensures r.None? <==> tag !in {"pending", "assigned", "in_progress", "delivered", "cancelled"}
  {
    StatusTagsDistinct();
    var r := FindByValue(StatusMembers(), StatusTag, tag);
    assert forall s: OrderStatus :: StatusTag(s) == tag ==> r == Some(s) by {
      forall s: OrderStatus | StatusTag(s) == tag ensures r == Some(s) {
        FindByValueOfMember(StatusMembers(), StatusTag, StatusIndex(s));
      }
    }
    r
  }

  /** The five tags are pairwise distinct, so the tag identifies the status. */
  lemma StatusTagsDistinct()
    ensures DistinctValues(StatusMembers(), StatusTag)
    ensures forall a: OrderStatus, b: OrderStatus :: StatusTag(a) == StatusTag(b) ==> a == b
  {
  }

  /** Decoding the tag of a status gives back that status. */
  lemma ParseStatusTag(s: OrderStatus)
    ensures ParseStatus(StatusTag(s)) == Some(s)
  {
  }

  // -------------------------------------------------------------------- User

  /**
    A `datetime`: the calendar fields, and the UTC offset in microseconds
    (`None` for a naive value such as `datetime.now()` returns; `Some` for an
    aware value such as `datetime.fromisoformat` returns for text with an
    offset).
  */
  datatype DateTime = DateTime(year: int, month: int, day: int,
                               hour: int, minute: int, second: int, microsecond: int,
                               utcOffset: Option<int>)

  /** The number of days in a month of the proleptic Gregorian calendar. */
  function DaysInMonth(year: int, month: int): (n: int)
    requires 1 <= month <= 12
    ensures 28 <= n <= 31
    ensures month == 2 ==> (n == 29 <==> year % 4 == 0 && (year % 100 != 0 || year % 400 == 0))
  {
    if month == 2 then
      (if year % 4 == 0 && (year % 100 != 0 || year % 400 == 0) then 29 else 28)
    else if month in {4, 6, 9, 11} then 30
    else 31
  }

  /** The values Python's `datetime` accepts: years 1..9999, a real date and time, an offset under a day. */
  predicate ValidDateTime(t: DateTime)
  {
    && 1 <= t.year <= 9999
    && 1 <= t.month <= 12
    && 1 <= t.day <= DaysInMonth(t.year, t.month)
    && 0 <= t.hour < 24 && 0 <= t.minute < 60 && 0 <= t.second < 60
    && 0 <= t.microsecond < 1000000
    && (t.utcOffset.Some? ==> -86400000000 < t.utcOffset.value < 86400000000)
  }

  /**
    The library pair `datetime.isoformat` / `datetime.fromisoformat`. The
    record codec is stated for any such pair; `fromisoformat` answers `None`
    where Python raises ValueError.
  */
  datatype IsoCodec = IsoCodec(isoformat: DateTime -> string,
                               fromisoformat: string -> Option<DateTime>)

  /**
    The laws of the library pair: the text form of every valid timestamp
    reads back as that timestamp, and whatever is read back is valid.
  */
  ghost predicate Lawful(c: IsoCodec)
  {
    && (forall t :: ValidDateTime(t) ==> c.fromisoformat(c.isoformat(t)) == Some(t))
    && (forall s :: c.fromisoformat(s).Some? ==> ValidDateTime(c.fromisoformat(s).value))
  }

  datatype User = User(username: string, password: string, role: UserRole,
                       name: string, createdAt: DateTime)

  /** What the constructor guarantees: the display name is empty only if the username is. */
  ghost predicate NameDefaulted(u: User)
  {
    u.name == [] ==> u.username == []
  }

  /**
    `User(username, password, role, name)`: an empty `name` falls back to
    `username`; `now` is the clock reading `datetime.now()` would take.
  */
  function NewUser(username: string, password: string, role: UserRole,
                   name: string := "", now: DateTime): (u: User)
    ensures u.username == username && u.password == password && u.role == role
    ensures name != [] ==> u.name == name
    ensures name == [] ==> u.name == username
    ensures u.createdAt == now
    ensures NameDefaulted(u)
    ensures username != [] ==> u.name != []
  {
    User.User(username, password, role, if name == [] then username else name, now)
  }

  /** The five keys `to_dict` writes and `from_dict` requires. */
  const UserKeys: set<string> := {"username", "password", "role", "name", "created_at"}

  /** The order in which `from_dict` reads the five keys. */
  const KeyOrder: seq<string> := ["username", "password", "role", "name", "created_at"]

  /** `user.to_dict()`: every field as a string, the role as its tag. */
  function ToDict(u: User, c: IsoCodec): (d: map<string, string>)
    ensures d.Keys == UserKeys
    ensures d["username"] == u.username && d["password"] == u.password
    ensures ParseRole(d["role"]) == Some(u.role)
    ensures d["name"] == u.name
    ensures d["created_at"] == c.isoformat(u.createdAt)
  {
    ParseRoleTag(u.role);
    map["username" := u.username,
        "password" := u.password,
        "role" := RoleTag(u.role),
        "name" := u.name,
        "created_at" := c.isoformat(u.createdAt)]
  }

  /**
    `User.from_dict(data)`: the steps in Python's evaluation order (the
    constructor's arguments left to right, then the `created_at` overwrite),
    failing at the first key that is missing or value that does not decode.
  */
  function FromDict(data: map<string, string>, now: DateTime, c: IsoCodec): (r: Result<User>)
    // it succeeds exactly when every key is present and both the role tag and the timestamp decode
    ensures r.Ok? <==>
      && UserKeys <= data.Keys
      && ParseRole(data["role"]).Some?
      && c.fromisoformat(data["created_at"]).Some?
    ensures forall k :: k in UserKeys && k !in data ==> r.Err?
    ensures "role" in data && data["role"] !in {"admin", "user", "rider"} ==> r.Err?
    // a success carries the map's fields; `created_at` comes from the map, never from `now`
    ensures r.Ok? ==>
      && r.value.username == data["username"]
      && r.value.password == data["password"]
      && RoleTag(r.value.role) == data["role"]
      && Some(r.value.createdAt) == c.fromisoformat(data["created_at"])
      && NameDefaulted(r.value)
    ensures r.Ok? && data["name"] != [] ==> r.value.name == data["name"]
    ensures r.Ok? && data["name"] == [] ==> r.value.name == data["username"]
    ensures r.Ok? && Lawful(c) ==> ValidDateTime(r.value.createdAt)
    // a failure names its cause, and it is the first cause in the order Python meets them:
    // the keys in `KeyOrder`, with the role tag checked before the `name` key is read
    ensures r.Err? && r.error.MissingKey? ==>
      && r.error.key in UserKeys && r.error.key !in data
      && (forall i, j :: 0 <= i < j < |KeyOrder| && KeyOrder[j] == r.error.key ==> KeyOrder[i] in data)
      && (r.error.key in {"name", "created_at"} ==> "role" in data && ParseRole(data["role"]).Some?)
    ensures r.Err? && r.error.UnknownRole? ==>
      && "username" in data && "password" in data && "role" in data
      && r.error.tag == data["role"] && ParseRole(data["role"]).None?
    ensures r.Err? && r.error.BadTimestamp? ==>
      && UserKeys <= data.Keys && ParseRole(data["role"]).Some?
      && r.error.text == data["created_at"] && c.fromisoformat(data["created_at"]).None?
  {
    if "username" !in data then Err(MissingKey("username"))
    else if "password" !in data then Err(MissingKey("password"))
    else if "role" !in data then Err(MissingKey("role"))
    else
      match ParseRole(data["role"])
      case None => Err(UnknownRole(data["role"]))
      case Some(role) =>
        if "name" !in data then Err(MissingKey("name"))
        else
          var user := NewUser(data["username"], data["password"], role, data["name"], now);
          if "created_at" !in data then Err(MissingKey("created_at"))
          else
            match c.fromisoformat(data["created_at"])
            case None => Err(BadTimestamp(data["created_at"]))
            case Some(t) => Ok(user.(createdAt := t))
  }

  /**
    Round trip in general: reading back what `to_dict` wrote restores every
    field, except that an empty name comes back as the username (the
    constructor's default runs again).
  */
  lemma ToDictFromDict(u: User, now: DateTime, c: IsoCodec)
    requires Lawful(c)
    requires ValidDateTime(u.createdAt)
    ensures FromDict(ToDict(u, c), now, c)
         == Ok(u.(name := if u.name == [] then u.username else u.name))
  {
  }

  /** Round trip for every user the constructor can build: `from_dict(to_dict(u)) == u`. */
  lemma RoundTrip(u: User, now: DateTime, c: IsoCodec)
    requires Lawful(c)
    requires NameDefaulted(u) && ValidDateTime(u.createdAt)
    ensures FromDict(ToDict(u, c), now, c) == Ok(u)
  {
  }

  /**
    Which error `from_dict` reports: the first missing key in reading order,
    except that an unknown role tag is reported before a missing `name` or
    `created_at`, and an unreadable timestamp comes last.
  */
  lemma FromDictReportsFirstFailure(data: map<string, string>, now: DateTime, c: IsoCodec)
    ensures "username" !in data ==> FromDict(data, now, c) == Err(MissingKey("username"))
    ensures "username" in data && "password" !in data ==>
      FromDict(data, now, c) == Err(MissingKey("password"))
    ensures {"username", "password"} <= data.Keys && "role" !in data ==>
      FromDict(data, now, c) == Err(MissingKey("role"))
    ensures {"username", "password", "role"} <= data.Keys && ParseRole(data["role"]).None? ==>
      FromDict(data, now, c) == Err(UnknownRole(data["role"]))
    ensures {"username", "password", "role"} <= data.Keys && ParseRole(data["role"]).Some?
            && "name" !in data ==>
      FromDict(data, now, c) == Err(MissingKey("name"))
    ensures {"username", "password", "role", "name"} <= data.Keys && ParseRole(data["role"]).Some?
            && "created_at" !in data ==>
      FromDict(data, now, c) == Err(MissingKey("created_at"))
    ensures UserKeys <= data.Keys && ParseRole(data["role"]).Some?
            && c.fromisoformat(data["created_at"]).None? ==>
      FromDict(data, now, c) == Err(BadTimestamp(data["created_at"]))
  {
  }

  /** The clock reading taken during `from_dict` never shows in its result. */
  lemma FromDictIgnoresClock(data: map<string, string>, now1: DateTime, now2: DateTime, c: IsoCodec)
    ensures FromDict(data, now1, c) == FromDict(data, now2, c)
  {
  }

  /**
    The other direction: a record with exactly the five keys, a non-defaulted
    name and a timestamp in its canonical text form is reproduced by
    `to_dict(from_dict(data))`.
  */
  lemma FromDictToDict(data: map<string, string>, now: DateTime, c: IsoCodec)
    requires data.Keys == UserKeys
    requires data["name"] != [] || data["username"] == []
    requires FromDict(data, now, c).Ok?
    requires c.isoformat(FromDict(data, now, c).value.createdAt) == data["created_at"]
    ensures ToDict(FromDict(data, now, c).value, c) == data
  {
  }
}
