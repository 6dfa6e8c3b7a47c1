/**
  Effective channel permissions (src/Core/PermissionComputer.cpp): roles give a base, channel
  overwrites for everyone, for roles and for the member take away and give back. Permissions
  are 64-bit masks. A mask is the set of its single-bit masks, and the results are stated about
  these sets, bit by bit.
*/
module Permissions {
  import opened Options
  import opened Sequences

  type Id = int
  type Mask = bv64

  const NO_PERMISSIONS: Mask := 0
  const ALL_PERMISSIONS: Mask := 0xFFFF_FFFF_FFFF_FFFF
  const ADMINISTRATOR: Mask := 0x8

  const ADD_REACTIONS: Mask := 0x40
  const VIEW_CHANNEL: Mask := 0x400
  const SEND_MESSAGES: Mask := 0x800
  const SEND_TTS_MESSAGES: Mask := 0x1000
  const EMBED_LINKS: Mask := 0x4000
  const ATTACH_FILES: Mask := 0x8000
  const READ_MESSAGE_HISTORY: Mask := 0x1_0000
  const MENTION_EVERYONE: Mask := 0x2_0000
  const USE_EXTERNAL_EMOJIS: Mask := 0x4_0000
  const USE_APPLICATION_COMMANDS: Mask := 0x8000_0000
  const USE_EXTERNAL_STICKERS: Mask := 0x20_0000_0000

  /** What anyone may do in a direct message. */
  const DM_PERMISSIONS: Mask :=
    VIEW_CHANNEL | SEND_MESSAGES | READ_MESSAGE_HISTORY | ATTACH_FILES | ADD_REACTIONS | EMBED_LINKS
    | USE_EXTERNAL_EMOJIS | MENTION_EVERYONE | USE_EXTERNAL_STICKERS | SEND_TTS_MESSAGES | USE_APPLICATION_COMMANDS

  datatype Role = Role(id: Id, permissions: Mask)

  datatype Target = ForRole | ForMember

  datatype Overwrite = Overwrite(target: Target, id: Id, allow: Mask, deny: Mask)

  // ------------------------------------------------------------------
  // Masks as sets of bits
  // ------------------------------------------------------------------

  predicate Single(m: Mask) {
    m != 0 && m & (m - 1) == 0
  }

  predicate In(m: Mask, p: Mask) {
    Single(m) && p & m != 0
  }

  ghost function Bits(p: Mask): iset<Mask> {
    iset m: Mask | In(m, p)
  }

  ghost function Everything(): iset<Mask> {
    iset m: Mask | Single(m)
  }

  lemma SingleBit(p: Mask, m: Mask)
    requires m & (m - 1) == 0
    ensures p & m == 0 || p & m == m
  {
  }

  lemma OrBit(a: Mask, b: Mask, m: Mask)
    requires Single(m)
    ensures (a | b) & m != 0 <==> a & m != 0 || b & m != 0
  {
    SingleBit(a, m);
    SingleBit(b, m);
    if a & m == 0 {
      assert (a | b) & m == b & m;
    } else {
      assert (a | b) & m == m;
    }
  }

  lemma MinusBit(p: Mask, d: Mask, m: Mask)
    requires Single(m)
    ensures (p & !d) & m != 0 <==> p & m != 0 && d & m == 0
  {
    SingleBit(p, m);
    SingleBit(d, m);
    if p & m == 0 {
      assert (p & !d) & m == 0;
    } else if d & m == 0 {
      assert (p & !d) & m == p & m;
    } else {
      assert (p & !d) & m == 0;
    }
  }

  lemma InOr(a: Mask, b: Mask, m: Mask)
    ensures In(m, a | b) <==> In(m, a) || In(m, b)
  {
    if Single(m) {
      OrBit(a, b, m);
    }
  }

  lemma InMinus(p: Mask, d: Mask, m: Mask)
    ensures In(m, p & !d) <==> In(m, p) && !In(m, d)
  {
    if Single(m) {
      MinusBit(p, d, m);
    }
  }

  lemma Union(a: Mask, b: Mask, c: Mask)
    requires forall m :: In(m, c) <==> In(m, a) || In(m, b)
    ensures Bits(c) == Bits(a) + Bits(b)
  {
  }

  lemma BitsOr(a: Mask, b: Mask)
    ensures Bits(a | b) == Bits(a) + Bits(b)
  {
    forall m ensures In(m, a | b) <==> In(m, a) || In(m, b) {
      InOr(a, b, m);
    }
    Union(a, b, a | b);
  }

  lemma BitsMinus(p: Mask, d: Mask)
    ensures Bits(p & !d) == Bits(p) - Bits(d)
  {
    forall m: Mask ensures In(m, p & !d) <==> In(m, p) && !In(m, d) {
      InMinus(p, d, m);
    }
  }

  lemma AllBit(m: Mask)
    ensures ALL_PERMISSIONS & m == m
  {
  }

  lemma NoneBit(m: Mask)
    ensures NO_PERMISSIONS & m == 0
  {
  }

  lemma BitsAll()
    ensures Bits(ALL_PERMISSIONS) == Everything()
  {
    forall m: Mask ensures m in Bits(ALL_PERMISSIONS) <==> Single(m) {
      AllBit(m);
    }
  }

  lemma BitsNone()
    ensures Bits(NO_PERMISSIONS) == iset{}
  {
    forall m: Mask ensures m !in Bits(NO_PERMISSIONS) {
      NoneBit(m);
    }
  }

  /** The administrator test of the code. */
  lemma AdministratorBit(p: Mask)
    ensures p & ADMINISTRATOR != 0 <==> ADMINISTRATOR in Bits(p)
    ensures ADMINISTRATOR in Everything()
  {
    assert Single(0x8);
  }

  lemma LowBit(x: Mask)
    requires x != 0
    ensures Single(x & (!x + 1))
    ensures x & (x & (!x + 1)) != 0
  {
  }

  lemma XorBit(a: Mask, b: Mask, m: Mask)
    requires Single(m) && (a ^ b) & m != 0
    ensures a & m != 0 <==> b & m == 0
  {
    SingleBit(a, m);
    SingleBit(b, m);
  }

  lemma DifferingBit(a: Mask, b: Mask) returns (m: Mask)
    requires a != b
    ensures Single(m) && (a & m != 0 <==> b & m == 0)
  {
    assert a ^ b != 0;
    m := (a ^ b) & (!(a ^ b) + 1);
    LowBit(a ^ b);
    XorBit(a, b, m);
  }

  lemma DifferingMember(a: Mask, b: Mask) returns (m: Mask)
    requires a != b
    ensures In(m, a) == !In(m, b)
  {
    m := DifferingBit(a, b);
  }

  lemma DifferentBits(a: Mask, b: Mask)
    requires a != b
    ensures Bits(a) != Bits(b)
  {
    var m := DifferingMember(a, b);
    assert (m in Bits(a)) == (m !in Bits(b));
  }

  /** Two masks with the same bits are the same number. */
  lemma BitsInjective(a: Mask, b: Mask)
    requires Bits(a) == Bits(b)
    ensures a == b
  {
    if a != b {
      DifferentBits(a, b);
    }
  }

  // ------------------------------------------------------------------
  // What the computation is to yield
  // ------------------------------------------------------------------

  /** A later role with the same id replaces an earlier one. */
  function RoleMap(roles: seq<Role>): map<Id, Mask> {
    if roles == [] then map[]
    else RoleMap(roles[..|roles| - 1])[roles[|roles| - 1].id := roles[|roles| - 1].permissions]
  }

  ghost function GivenBy(roles: map<Id, Mask>, id: Id): iset<Mask> {
    if id in roles then Bits(roles[id]) else iset{}
  }

  ghost function Given(roles: map<Id, Mask>, ids: seq<Id>): iset<Mask> {
    if ids == [] then iset{} else GivenBy(roles, ids[0]) + Given(roles, ids[1..])
  }

  ghost function Base(roles: map<Id, Mask>, guild: Id, ids: seq<Id>): iset<Mask> {
    var p := GivenBy(roles, guild) + Given(roles, ids);
    if ADMINISTRATOR in p then Everything() else p
  }

  /** The first overwrite for a target is the one that counts. */
  function First(overwrites: seq<Overwrite>, target: Target, id: Id): Option<Overwrite> {
    if overwrites == [] then None
    else if overwrites[0].target == target && overwrites[0].id == id then Some(overwrites[0])
    else First(overwrites[1..], target, id)
  }

  ghost function Allows(overwrites: seq<Overwrite>, target: Target, id: Id): iset<Mask> {
    var ow := First(overwrites, target, id);
    if ow.Some? then Bits(ow.value.allow) else iset{}
  }

  ghost function Denies(overwrites: seq<Overwrite>, target: Target, id: Id): iset<Mask> {
    var ow := First(overwrites, target, id);
    if ow.Some? then Bits(ow.value.deny) else iset{}
  }

  ghost function RolesAllow(overwrites: seq<Overwrite>, ids: seq<Id>): iset<Mask> {
    if ids == [] then iset{} else Allows(overwrites, ForRole, ids[0]) + RolesAllow(overwrites, ids[1..])
  }

  ghost function RolesDeny(overwrites: seq<Overwrite>, ids: seq<Id>): iset<Mask> {
    if ids == [] then iset{} else Denies(overwrites, ForRole, ids[0]) + RolesDeny(overwrites, ids[1..])
  }

  ghost function Overwritten(base: iset<Mask>, user: Id, guild: Id, ids: seq<Id>,
                             overwrites: seq<Overwrite>): iset<Mask> {
    if ADMINISTRATOR in base then Everything()
    else
      var everyone := base - Denies(overwrites, ForRole, guild) + Allows(overwrites, ForRole, guild);
      var byRole := everyone - RolesDeny(overwrites, ids) + RolesAllow(overwrites, ids);
      byRole - Denies(overwrites, ForMember, user) + Allows(overwrites, ForMember, user)
  }

  ghost function BasePermissions(owner: Id, user: Id, guild: Id, ids: seq<Id>, roles: seq<Role>): iset<Mask> {
    if owner == user then Everything() else Base(RoleMap(roles), guild, ids)
  }

  ghost function ChannelPermissions(owner: Id, user: Id, guild: Id, isDM: bool, ids: seq<Id>, roles: seq<Role>,
                                    overwrites: seq<Overwrite>): iset<Mask> {
    if isDM then Bits(DM_PERMISSIONS)
    else if owner == user then Everything()
    else
      var base := Base(RoleMap(roles), guild, ids);
      if ADMINISTRATOR in base then Everything() else Overwritten(base, user, guild, ids, overwrites)
  }

  // ------------------------------------------------------------------
  // The two entry points agree
  // ------------------------------------------------------------------

  /** The channel computation, which shares the role map, is the two public steps in a row. */
  lemma ChannelIsOverwrittenBase(owner: Id, user: Id, guild: Id, ids: seq<Id>, roles: seq<Role>,
                                 overwrites: seq<Overwrite>)
    ensures ChannelPermissions(owner, user, guild, false, ids, roles, overwrites)
            == Overwritten(BasePermissions(owner, user, guild, ids, roles), user, guild, ids, overwrites)
  {
    AdministratorBit(ALL_PERMISSIONS);
  }

  // ------------------------------------------------------------------
  // Who decides about one bit
  // ------------------------------------------------------------------

  ghost predicate SomeRoleGives(roles: map<Id, Mask>, ids: seq<Id>, m: Mask) {
    exists id :: id in ids && m in GivenBy(roles, id)
  }

  ghost predicate SomeRoleAllows(overwrites: seq<Overwrite>, ids: seq<Id>, m: Mask) {
    exists id :: id in ids && m in Allows(overwrites, ForRole, id)
  }

  ghost predicate SomeRoleDenies(overwrites: seq<Overwrite>, ids: seq<Id>, m: Mask) {
    exists id :: id in ids && m in Denies(overwrites, ForRole, id)
  }

  lemma {:induction false} GivenBit(roles: map<Id, Mask>, ids: seq<Id>, m: Mask)
    ensures m in Given(roles, ids) <==> SomeRoleGives(roles, ids, m)
  {
    if ids != [] {
      HeadTail(ids);
      GivenBit(roles, ids[1..], m);
      assert ids[0] in ids;
    }
  }

  lemma {:induction false} RolesBit(overwrites: seq<Overwrite>, ids: seq<Id>, m: Mask)
    ensures m in RolesAllow(overwrites, ids) <==> SomeRoleAllows(overwrites, ids, m)
    ensures m in RolesDeny(overwrites, ids) <==> SomeRoleDenies(overwrites, ids, m)
  {
    if ids != [] {
      HeadTail(ids);
      RolesBit(overwrites, ids[1..], m);
      assert ids[0] in ids;
    }
  }

  /** The administrator bit, wherever the base gets it from. */
  ghost predicate Administrator(roles: map<Id, Mask>, guild: Id, ids: seq<Id>) {
    ADMINISTRATOR in GivenBy(roles, guild) || SomeRoleGives(roles, ids, ADMINISTRATOR)
  }

  /** The order of precedence for one bit. */
  ghost predicate Decision(roles: map<Id, Mask>, user: Id, guild: Id, ids: seq<Id>, overwrites: seq<Overwrite>,
                           m: Mask) {
    if m in Allows(overwrites, ForMember, user) then true
    else if m in Denies(overwrites, ForMember, user) then false
    else if SomeRoleAllows(overwrites, ids, m) then true
    else if SomeRoleDenies(overwrites, ids, m) then false
    else if m in Allows(overwrites, ForRole, guild) then true
    else if m in Denies(overwrites, ForRole, guild) then false
    else m in GivenBy(roles, guild) || SomeRoleGives(roles, ids, m)
  }

  /** A bit is set exactly if the user owns the guild, is an administrator, or precedence decides for it. */
  lemma ChannelBit(owner: Id, user: Id, guild: Id, ids: seq<Id>, roles: seq<Role>, overwrites: seq<Overwrite>, m: Mask)
    requires m in Everything()
    ensures m in ChannelPermissions(owner, user, guild, false, ids, roles, overwrites)
            <==> owner == user || Administrator(RoleMap(roles), guild, ids)
                 || Decision(RoleMap(roles), user, guild, ids, overwrites, m)
  {
    AdministratorBit(ALL_PERMISSIONS);
    GivenBit(RoleMap(roles), ids, ADMINISTRATOR);
    GivenBit(RoleMap(roles), ids, m);
    RolesBit(overwrites, ids, m);
  }

  /** The base is every bit for the owner and administrators, otherwise what the everyone role and own roles give. */
  lemma BaseBit(owner: Id, user: Id, guild: Id, ids: seq<Id>, roles: seq<Role>, m: Mask)
    requires m in Everything()
    ensures m in BasePermissions(owner, user, guild, ids, roles)
            <==> owner == user || Administrator(RoleMap(roles), guild, ids)
                 || m in GivenBy(RoleMap(roles), guild) || SomeRoleGives(RoleMap(roles), ids, m)
  {
    GivenBit(RoleMap(roles), ids, ADMINISTRATOR);
    GivenBit(RoleMap(roles), ids, m);
  }

  /** Of the roles with one id the last is the one in the map. */
  lemma {:induction false} LastRoleCounts(roles: seq<Role>, i: nat)
    requires i < |roles| && forall j :: i < j < |roles| ==> roles[j].id != roles[i].id
    ensures roles[i].id in RoleMap(roles) && RoleMap(roles)[roles[i].id] == roles[i].permissions
    decreases |roles|
  {
    var before := roles[..|roles| - 1];
    if i < |roles| - 1 {
      assert before[i] == roles[i];
      assert forall j :: i < j < |before| ==> before[j] == roles[j];
      LastRoleCounts(before, i);
    }
  }

  lemma {:induction false} NoRoleNoEntry(roles: seq<Role>, id: Id)
    requires forall r :: r in roles ==> r.id != id
    ensures id !in RoleMap(roles)
    decreases |roles|
  {
    if roles != [] {
      assert roles[|roles| - 1] in roles;
      NoRoleNoEntry(roles[..|roles| - 1], id);
    }
  }

  /** Of the overwrites for one target the first is the one that counts. */
  lemma {:induction false} FirstOverwriteCounts(overwrites: seq<Overwrite>, i: nat)
    requires i < |overwrites|
    requires forall j :: 0 <= j < i ==>
               !(overwrites[j].target == overwrites[i].target && overwrites[j].id == overwrites[i].id)
    ensures First(overwrites, overwrites[i].target, overwrites[i].id) == Some(overwrites[i])
  {
    if i > 0 {
      var rest := overwrites[1..];
      assert rest[i - 1] == overwrites[i];
      assert forall j :: 0 <= j < i - 1 ==> rest[j] == overwrites[j + 1];
      FirstOverwriteCounts(rest, i - 1);
    }
  }

  lemma {:induction false} NoOverwriteNone(overwrites: seq<Overwrite>, target: Target, id: Id)
    requires forall o :: o in overwrites ==> !(o.target == target && o.id == id)
    ensures First(overwrites, target, id) == None
  {
    if overwrites != [] {
      assert overwrites[0] in overwrites;
      HeadTail(overwrites);
      NoOverwriteNone(overwrites[1..], target, id);
    }
  }

  lemma GivesBit(roles: map<Id, Mask>, id: Id, m: Mask)
    requires Single(m)
    ensures m in GivenBy(roles, id) <==> id in roles && roles[id] & m != 0
  {
    if id in roles {
      assert m in Bits(roles[id]) <==> In(m, roles[id]);
    }
  }

  lemma OverwriteBit(overwrites: seq<Overwrite>, target: Target, id: Id, m: Mask)
    requires Single(m)
    ensures var ow := First(overwrites, target, id);
            && (m in Allows(overwrites, target, id) <==> ow.Some? && ow.value.allow & m != 0)
            && (m in Denies(overwrites, target, id) <==> ow.Some? && ow.value.deny & m != 0)
  {
    var ow := First(overwrites, target, id);
    if ow.Some? {
      assert m in Bits(ow.value.allow) <==> In(m, ow.value.allow);
      assert m in Bits(ow.value.deny) <==> In(m, ow.value.deny);
    }
  }

  /** Being an administrator is bit 3 of the everyone role or of one of the member's roles. */
  lemma AdministratorIsBit3(roles: map<Id, Mask>, guild: Id, ids: seq<Id>)
    ensures Administrator(roles, guild, ids)
            <==> exists id :: (id == guild || id in ids) && id in roles && roles[id] & 0x8 != 0
  {
    BitThreeSingle();
    forall id ensures ADMINISTRATOR in GivenBy(roles, id) <==> id in roles && roles[id] & 0x8 != 0 {
      GivesBit(roles, id, 0x8);
    }
  }

  lemma BitThreeSingle()
    ensures Single(0x8)
  {
  }

  /** In a direct message everyone has the same eleven permissions, whatever roles and overwrites there are. */
  lemma DirectMessageMask(owner: Id, user: Id, guild: Id, ids: seq<Id>, roles: seq<Role>, overwrites: seq<Overwrite>)
    ensures ChannelPermissions(owner, user, guild, true, ids, roles, overwrites) == Bits(0x20_8007_DC40)
  {
  }

  /** Reordering or repeating the member's roles changes nothing. */
  lemma RoleOrderIrrelevant(owner: Id, user: Id, guild: Id, isDM: bool, a: seq<Id>, b: seq<Id>, roles: seq<Role>,
                            overwrites: seq<Overwrite>)
    requires forall id :: id in a <==> id in b
    ensures ChannelPermissions(owner, user, guild, isDM, a, roles, overwrites)
            == ChannelPermissions(owner, user, guild, isDM, b, roles, overwrites)
  {
    var rm := RoleMap(roles);
    forall m ensures m in Given(rm, a) <==> m in Given(rm, b) {
      GivenBit(rm, a, m);
      GivenBit(rm, b, m);
    }
    assert Given(rm, a) == Given(rm, b);
    forall m ensures (m in RolesAllow(overwrites, a) <==> m in RolesAllow(overwrites, b))
                  && (m in RolesDeny(overwrites, a) <==> m in RolesDeny(overwrites, b)) {
      RolesBit(overwrites, a, m);
      RolesBit(overwrites, b, m);
    }
    assert RolesAllow(overwrites, a) == RolesAllow(overwrites, b);
    assert RolesDeny(overwrites, a) == RolesDeny(overwrites, b);
  }

  // ------------------------------------------------------------------
  // The computation as it runs
  // ------------------------------------------------------------------

  method BuildRoleMap(roles: seq<Role>) returns (roleMap: map<Id, Mask>)
    ensures roleMap == RoleMap(roles)
  {
    roleMap := map[];
    var i := 0;
    while i < |roles|
      invariant 0 <= i <= |roles|
      invariant roleMap == RoleMap(roles[..i])
    {
      roleMap := roleMap[roles[i].id := roles[i].permissions];
      assert roles[..i + 1][..i] == roles[..i];
      i := i + 1;
    }
    assert roles[..i] == roles;
  }

  lemma UnionStep(a: iset<Mask>, b: iset<Mask>, c: iset<Mask>)
    ensures (a + b) + c == a + (b + c)
    ensures a + iset{} == a
  {
  }

  method OrInto(a: Mask, b: Mask) returns (c: Mask)
    ensures Bits(c) == Bits(a) + Bits(b)
  {
    BitsOr(a, b);
    c := a | b;
  }

  /** What a role adds, nothing if it is not in the map. */
  method OrRole(before: Mask, roleMap: map<Id, Mask>, roleId: Id) returns (permissions: Mask)
    ensures Bits(permissions) == Bits(before) + GivenBy(roleMap, roleId)
  {
    permissions := before;
    if roleId in roleMap {
      permissions := OrInto(before, roleMap[roleId]);
    } else {
      UnionStep(Bits(before), iset{}, iset{});
    }
  }

  method UnionOfRoles(start: Mask, memberRoleIds: seq<Id>, roleMap: map<Id, Mask>) returns (permissions: Mask)
    ensures Bits(permissions) == Bits(start) + Given(roleMap, memberRoleIds)
  {
    permissions := start;
    ghost var all := Bits(start) + Given(roleMap, memberRoleIds);
    var i := 0;
    assert memberRoleIds[0..] == memberRoleIds;
    while i < |memberRoleIds|
      invariant 0 <= i <= |memberRoleIds|
      invariant Bits(permissions) + Given(roleMap, memberRoleIds[i..]) == all
    {
      assert memberRoleIds[i..][1..] == memberRoleIds[i + 1..];
      UnionStep(Bits(permissions), GivenBy(roleMap, memberRoleIds[i]), Given(roleMap, memberRoleIds[i + 1..]));
      permissions := OrRole(permissions, roleMap, memberRoleIds[i]);
      i := i + 1;
    }
    UnionStep(Bits(permissions), iset{}, iset{});
  }

  method ComputeBaseWithMap(guildId: Id, memberRoleIds: seq<Id>, roleMap: map<Id, Mask>) returns (permissions: Mask)
    ensures Bits(permissions) == Base(roleMap, guildId, memberRoleIds)
  {
    permissions := NO_PERMISSIONS;
    BitsNone();
    if guildId in roleMap {
      permissions := roleMap[guildId];
    }
    permissions := UnionOfRoles(permissions, memberRoleIds, roleMap);
    AdministratorBit(permissions);
    if permissions & ADMINISTRATOR != 0 {
      permissions := ALL_PERMISSIONS;
      BitsAll();
    }
  }

  method ComputeBasePermissions(owner: Id, user: Id, guild: Id, ids: seq<Id>, allRoles: seq<Role>)
    returns (permissions: Mask)
    ensures Bits(permissions) == BasePermissions(owner, user, guild, ids, allRoles)
  {
    if owner == user {
      BitsAll();
      return ALL_PERMISSIONS;
    }
    var roleMap := BuildRoleMap(allRoles);
    permissions := ComputeBaseWithMap(guild, ids, roleMap);
  }

  /** The loop that looks for the first overwrite of a target, with its break. */
  method FindOverwrite(overwrites: seq<Overwrite>, target: Target, id: Id) returns (found: Option<Overwrite>)
    ensures found == First(overwrites, target, id)
  {
    var i := 0;
    while i < |overwrites|
      invariant 0 <= i <= |overwrites|
      invariant First(overwrites, target, id) == First(overwrites[i..], target, id)
    {
      if overwrites[i].target == target && overwrites[i].id == id {
        return Some(overwrites[i]);
      }
      assert overwrites[i..][1..] == overwrites[i + 1..];
      i := i + 1;
    }
    return None;
  }

  method CollectRoleOverwrites(ids: seq<Id>, overwrites: seq<Overwrite>) returns (roleAllow: Mask, roleDeny: Mask)
    ensures Bits(roleAllow) == RolesAllow(overwrites, ids) && Bits(roleDeny) == RolesDeny(overwrites, ids)
  {
    roleAllow, roleDeny := NO_PERMISSIONS, NO_PERMISSIONS;
    BitsNone();
    ghost var allow, deny := RolesAllow(overwrites, ids), RolesDeny(overwrites, ids);
    assert ids[0..] == ids;
    assert iset{} + allow == allow && iset{} + deny == deny;
    var i := 0;
    while i < |ids|
      invariant 0 <= i <= |ids|
      invariant Bits(roleAllow) + RolesAllow(overwrites, ids[i..]) == allow
      invariant Bits(roleDeny) + RolesDeny(overwrites, ids[i..]) == deny
    {
      assert ids[i..][1..] == ids[i + 1..];
      UnionStep(Bits(roleAllow), Allows(overwrites, ForRole, ids[i]), RolesAllow(overwrites, ids[i + 1..]));
      UnionStep(Bits(roleDeny), Denies(overwrites, ForRole, ids[i]), RolesDeny(overwrites, ids[i + 1..]));
      var ow := FindOverwrite(overwrites, ForRole, ids[i]);
      if ow.Some? {
        roleDeny := OrInto(roleDeny, ow.value.deny);
        roleAllow := OrInto(roleAllow, ow.value.allow);
      } else {
        UnionStep(Bits(roleAllow), iset{}, iset{});
        UnionStep(Bits(roleDeny), iset{}, iset{});
      }
      i := i + 1;
    }
    UnionStep(Bits(roleAllow), iset{}, iset{});
    UnionStep(Bits(roleDeny), iset{}, iset{});
  }

  /** Denied bits go first, allowed ones come after. */
  method ApplyOverwrite(before: Mask, allow: Mask, deny: Mask) returns (permissions: Mask)
    ensures Bits(permissions) == Bits(before) - Bits(deny) + Bits(allow)
  {
    BitsMinus(before, deny);
    permissions := before & !deny;
    BitsOr(permissions, allow);
    permissions := permissions | allow;
  }

  lemma ApplyNothing(a: iset<Mask>)
    ensures a - iset{} + iset{} == a
  {
  }

  /** The first overwrite of a target, if there is one. */
  method ApplyFirst(before: Mask, overwrites: seq<Overwrite>, target: Target, id: Id) returns (permissions: Mask)
    ensures Bits(permissions) == Bits(before) - Denies(overwrites, target, id) + Allows(overwrites, target, id)
  {
    permissions := before;
    var ow := FindOverwrite(overwrites, target, id);
    if ow.Some? {
      permissions := ApplyOverwrite(before, ow.value.allow, ow.value.deny);
    } else {
      ApplyNothing(Bits(before));
    }
  }

  method ComputeOverwrites(base: Mask, user: Id, guild: Id, ids: seq<Id>, overwrites: seq<Overwrite>)
    returns (permissions: Mask)
    ensures Bits(permissions) == Overwritten(Bits(base), user, guild, ids, overwrites)
  {
    AdministratorBit(base);
    if base & ADMINISTRATOR != 0 {
      BitsAll();
      return ALL_PERMISSIONS;
    }
    permissions := base;
    permissions := ApplyFirst(permissions, overwrites, ForRole, guild);
    var roleAllow, roleDeny := CollectRoleOverwrites(ids, overwrites);
    permissions := ApplyOverwrite(permissions, roleAllow, roleDeny);
    permissions := ApplyFirst(permissions, overwrites, ForMember, user);
  }

  method ComputeChannelPermissions(owner: Id, user: Id, guild: Id, isDM: bool, ids: seq<Id>, allRoles: seq<Role>,
                                   overwrites: seq<Overwrite>) returns (permissions: Mask)
    ensures Bits(permissions) == ChannelPermissions(owner, user, guild, isDM, ids, allRoles, overwrites)
  {
    if isDM {
      return DM_PERMISSIONS;
    }
    if owner == user {
      BitsAll();
      return ALL_PERMISSIONS;
    }
    var roleMap := BuildRoleMap(allRoles);
    var base := ComputeBaseWithMap(guild, ids, roleMap);
    AdministratorBit(base);
    if base & ADMINISTRATOR != 0 {
      BitsAll();
      return ALL_PERMISSIONS;
    }
    permissions := ComputeOverwrites(base, user, guild, ids, overwrites);
  }
}
