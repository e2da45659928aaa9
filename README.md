# QuickCart record codecs in Dafny

A model of the record layer of QuickCart, a console delivery marketplace
written in Python. It covers the two closed enumerations, `UserRole`
(`admin`, `user`, `rider`) and `OrderStatus` (`pending`, `assigned`,
`in_progress`, `delivered`, `cancelled`), which appears twice in the
repository. It also covers the `User` record: its constructor, which
defaults an empty display name to the username, and its `to_dict` /
`from_dict` serialiser pair.

Files:

- `wrappers.dfy`: `Option`, `Result` and the `Error` kinds `from_dict` can
  raise. These are `KeyError` for a missing key and `ValueError` for an
  unknown role tag or an unreadable timestamp.
- `enum_lookup.dfy`: the value lookup behind Python's `Enum(value)`. A scan
  of the members in declaration order returns the member Python's lookup
  returns: the first one declared with that value.
- `quickcart.dfy`: module `QuickCart`, covering `UserRole`, `OrderStatus`,
  `User`, `NewUser` (the constructor), `ToDict` and `FromDict`.
- `order_status.dfy`: module `OrderStatusEnum`, the standalone enumeration of
  orderStatus.py. Module `OrderStatusAgreement` proves the two `OrderStatus`
  declarations interchangeable.

Modelling choices:

- The clock reading `datetime.now()` becomes the parameter `now`.
- `datetime.isoformat` / `datetime.fromisoformat` are library code. They
  become an `IsoCodec` pair of functions. The round-trip lemmas take the
  pair's laws as a hypothesis (`Lawful`): the text form of every valid
  timestamp (`ValidDateTime`: years 1 to 9999, a real calendar date, a UTC
  offset under a day) reads back as that timestamp, and whatever is read
  back is valid. A timestamp carries an optional UTC offset, so the aware
  values `fromisoformat` returns for text with an offset are represented.
- `from_dict` builds a fresh `User` and then overwrites its `created_at`.
  Nothing else holds that object at that point, so the overwrite is a record
  update on a value. Nothing in QuickCart.py mutates a `User` after it is
  built, so `User` is a datatype.
- `FromDict` fails at the same step Python does, and its contract names the
  error. It follows the left-to-right evaluation of the constructor's
  arguments: the `username`, `password` and `role` keys, then the role tag,
  then the `name` key, then the `created_at` key and its text.
- The role tags are those of QuickCart.py:10-12: `"admin"`, `"user"`,
  `"rider"`.
- `Error` keeps `KeyError` (a missing key) and `ValueError` (an unknown role
  tag, an unreadable timestamp) apart.

One limit of the round trip: `from_dict(to_dict(u))` gives back `u` only
for users whose name is non-empty or whose username is empty. Every user
built by the constructor is like this (`NameDefaulted`). A record with an
empty name comes back with the username as its name, because the
constructor's default runs again (`ToDictFromDict`).

## Model

| member | source | states |
|---|---|---|
| `EnumLookup.FindByValue` | QuickCart.py:41 | `Enum(value)` lookup: it fails exactly when no member carries the value; a success is a member carrying that value |
| `EnumLookup.FindByValueFirst` | QuickCart.py:41 | the lookup returns the first member in declaration order that carries the value |
| `EnumLookup.FindByValueOfMember` | QuickCart.py:41 | when no two members share a value, looking up a member's value returns that member |
| `QuickCart.RoleMembers` | QuickCart.py:9-12 | `UserRole` has exactly three members, all distinct, and every role is listed at its declaration position |
| `QuickCart.ParseRole` | QuickCart.py:9-12 | `UserRole(tag)` is `r` exactly when `r.value == tag`; it fails exactly on strings other than `"admin"`, `"user"`, `"rider"` |
| `QuickCart.RoleTagsDistinct` | QuickCart.py:10-12 | the three role tags are pairwise distinct, so encoding a role is injective |
| `QuickCart.ParseRoleTag` | QuickCart.py:9-12 | decoding the tag of any role gives back that role |
| `QuickCart.StatusMembers` | QuickCart.py:14-19 | `OrderStatus` has exactly five members, all distinct, in declaration order |
| `QuickCart.ParseStatus` | QuickCart.py:14-19 | `OrderStatus(tag)` is `s` exactly when `s.value == tag`; it fails exactly on strings other than the five tags |
| `QuickCart.StatusTagsDistinct` | QuickCart.py:15-19 | the five status tags are pairwise distinct, so encoding a status is injective |
| `QuickCart.ParseStatusTag` | QuickCart.py:14-19 | decoding the tag of any status gives back that status |
| `QuickCart.NewUser` | QuickCart.py:23-28 | the constructor keeps username, password and role and stamps `now`; the name is the given one when non-empty, else the username; so the name is non-empty whenever the username is |
| `QuickCart.ToDict` | QuickCart.py:30-37 | `to_dict` has exactly the five keys; the role is stored as a tag that decodes back to the role; the timestamp is stored as its ISO text |
| `QuickCart.FromDict` | QuickCart.py:39-43 | `from_dict` succeeds exactly when all five keys are present and the role tag and the timestamp both decode; a success carries the map's fields, with the name defaulted and `created_at` parsed from the map; a failure names its cause (a missing key, the unknown role tag, the unreadable timestamp text), and it is the first cause in Python's evaluation order |
| `QuickCart.FromDictReportsFirstFailure` | QuickCart.py:41-42 | for each way a record can be malformed, the exact error `from_dict` reports: a missing `username`, `password` or `role` key first, then an unknown role tag, then a missing `name`, then a missing `created_at`, then an unreadable timestamp |
| `QuickCart.ToDictFromDict` | QuickCart.py:27-43 | `from_dict(to_dict(u))` restores every field of any `u` with a valid timestamp, except that an empty name comes back as the username |
| `QuickCart.RoundTrip` | QuickCart.py:30-43 | `from_dict(to_dict(u)) == u` for every user that satisfies the constructor's name default and holds a valid timestamp |
| `QuickCart.FromDictIgnoresClock` | QuickCart.py:40-43 | the clock reading taken inside `from_dict` never reaches its result: `created_at` comes from the map |
| `QuickCart.FromDictToDict` | QuickCart.py:30-43 | a record with exactly the five keys, a non-defaulted name and a canonical timestamp text is reproduced by `to_dict(from_dict(data))` |
| `OrderStatusEnum.Members` | orderStatus.py:3-8 | the standalone `OrderStatus` has exactly five members, all distinct, in declaration order |
| `OrderStatusEnum.Parse` | orderStatus.py:3-8 | `OrderStatus(tag)` is `s` exactly when `s.value == tag`; it fails exactly on strings other than the five tags |
| `OrderStatusEnum.TagsDistinct` | orderStatus.py:4-8 | the five tags are pairwise distinct, so encoding is injective |
| `OrderStatusEnum.ParseTag` | orderStatus.py:3-8 | decoding the tag of any status gives back that status |
| `OrderStatusAgreement.ToStandalone` | orderStatus.py:3-8 | pairing QuickCart.py's variants with orderStatus.py's by name preserves tags and declaration positions |
| `OrderStatusAgreement.FromStandalone` | orderStatus.py:3-8 | the reverse pairing preserves tags and inverts `ToStandalone` |
| `OrderStatusAgreement.SameMembers` | QuickCart.py:14-19 | the two declarations list corresponding variants in the same order, and the pairing is a bijection |
| `OrderStatusAgreement.SameDecoding` | orderStatus.py:3-8 | for every string, decoding with either declaration gives corresponding results, failures included |

## Left out

- `datetime.now()` (QuickCart.py:28) reads the wall clock. It is the parameter `now`.
- The ISO-8601 formatting and parsing inside `datetime.isoformat` / `datetime.fromisoformat` is library code. The model takes the pair as a parameter, and the round trip assumes the pair's own laws.
- Of a time zone, a timestamp carries only its UTC offset. The `tzinfo` object itself (its name, daylight-saving rules) and the `fold` attribute are not represented.
- `from_dict` input values are strings here. A JSON record could hold other types, such as a number under `"username"`. Python would then build a `User` with a non-string field, or raise from `UserRole`/`fromisoformat`. The model does not cover that case.
- Extra keys in the input to `from_dict` are ignored, as in Python. `FromDictToDict` therefore assumes exactly the five keys.
- Object identity and aliasing of `User` instances are not modelled. Nothing in QuickCart.py mutates a `User` after `from_dict` returns it.
- The imports of `json`, `os` and `uuid` (QuickCart.py:1-6) are not used in QuickCart.py. Products, orders, line items, the document store, order status transitions and the console menu are not part of this model, because no code for them appears in QuickCart.py or orderStatus.py.
- Passwords are stored and compared as plain strings. The model carries them as an opaque field.
