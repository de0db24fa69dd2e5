/** Shared vocabulary: optional values and the enumerations of the schema. */
module Common {

  /** A value that a request may omit (JavaScript `undefined`). */
  datatype Option<+T> = None | Some(value: T) {
    function GetOr(default: T): T {
      match this
      case Some(v) => v
      case None => default
    }
  }

  /** JavaScript truthiness of an optional string: absent and "" are falsy. */
  predicate Truthy(s: Option<string>) {
    s.Some? && s.value != ""
  }

  /** `a || b` on optional strings. */
  function OrElse(a: Option<string>, b: string): (r: string)
    ensures Truthy(a) ==> r == a.value
    ensures !Truthy(a) ==> r == b
  {
    if Truthy(a) then a.value else b
  }

  /** JavaScript truthiness of an optional number: absent and 0 are falsy. */
  predicate TruthyReal(x: Option<real>) {
    x.Some? && x.value != 0.0
  }

  predicate TruthyInt(x: Option<int>) {
    x.Some? && x.value != 0
  }

  datatype Role = ADMIN | USER

  function RoleName(r: Role): string {
    match r
    case ADMIN => "ADMIN"
    case USER => "USER"
  }

  /** The role a string names, if it names one. */
  function ParseRole(s: string): (r: Option<Role>)
    ensures r.Some? ==> RoleName(r.value) == s
    ensures r.None? ==> s != "ADMIN" && s != "USER"
  {
    if s == "ADMIN" then Some(ADMIN) else if s == "USER" then Some(USER) else None
  }

  datatype DeckZone = MAIN | EXTRA | SIDE

  function ZoneName(z: DeckZone): string {
    match z
    case MAIN => "MAIN"
    case EXTRA => "EXTRA"
    case SIDE => "SIDE"
  }

  /** The zone a string names, if it names one. */
  function ParseZone(s: string): (r: Option<DeckZone>)
    ensures r.Some? ==> ZoneName(r.value) == s
    ensures r.None? ==> s !in {"MAIN", "EXTRA", "SIDE"}
  {
    if s == "MAIN" then Some(MAIN)
    else if s == "EXTRA" then Some(EXTRA)
    else if s == "SIDE" then Some(SIDE)
    else None
  }

  /** The values of the schema's enumerations that the handlers pass through as
      strings; the database refuses any other value. */
  const LANGUAGES: set<string> := {"EN", "JP", "CN", "KOR"}
  const CONDITIONS: set<string> :=
    {"MINT", "NEAR_MINT", "LIGHTLY_PLAYED", "MODERATELY_PLAYED", "HEAVILY_PLAYED", "DAMAGED"}
  const BAN_STATUSES: set<string> := {"UNLIMITED", "SEMI_LIMITED", "LIMITED", "FORBIDDEN"}
  const CARD_TYPES: set<string> := {"MONSTER", "SPELL", "TRAP"}
  const FRAME_COLORS: set<string> :=
    {"NORMAL", "EFFECT", "RITUAL", "FUSION", "SYNCHRO", "XYZ", "PENDULUM", "LINK", "TOKEN", "SPELL", "TRAP"}
  const ATTRIBUTES: set<string> := {"DARK", "LIGHT", "EARTH", "WATER", "FIRE", "WIND", "DIVINE"}
  const RARITIES: set<string> :=
    {"COMMON", "RARE", "SUPER_RARE", "ULTRA_RARE", "SECRET_RARE", "ULTIMATE_RARE", "GHOST_RARE",
     "STARLIGHT_RARE", "PRISMATIC_SECRET_RARE", "GOLD_RARE", "PLATINUM_RARE", "COLLECTORS_RARE",
     "QUARTER_CENTURY_SECRET"}
  const SET_TYPES: set<string> :=
    {"BOOSTER", "STRUCTURE_DECK", "STARTER_DECK", "SPECIAL_EDITION", "TIN", "PROMO", "DUELIST_PACK",
     "LEGENDARY_COLLECTION"}

  /** HTTP status codes the handlers answer with. */
  const OK: nat := 200
  const CREATED: nat := 201
  const BAD_REQUEST: nat := 400
  const UNAUTHORIZED: nat := 401
  const FORBIDDEN_STATUS: nat := 403
  const NOT_FOUND: nat := 404
  const CONFLICT: nat := 409
  const SERVER_ERROR: nat := 500
}
