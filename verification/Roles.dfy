/** The role matrix and its guards (backend/src/authorization/authorization.service.ts). */
module Roles {
  datatype Role = Owner | Admin | Member | Viewer

  datatype Capability =
    | OrganizationRead | OrganizationUpdate | OrganizationDelete | OrganizationLeave
    | MembershipRead | MembershipChangeRole | MembershipRemove
    | InvitationRead | InvitationCreate | InvitationResend | InvitationRevoke
    | OwnershipTransfer | BillingRead | BillingManage
    | NotificationRead | NotificationManage | FileRead | FileUpload | FileDelete

  const VIEWER_CAPABILITIES: set<Capability> :=
    {OrganizationRead, OrganizationLeave, MembershipRead, NotificationRead, NotificationManage, FileRead}

  const MEMBER_CAPABILITIES: set<Capability> :=
    {OrganizationRead, OrganizationLeave, MembershipRead, NotificationRead, NotificationManage, FileRead, FileUpload, FileDelete}

  const ADMIN_CAPABILITIES: set<Capability> :=
    {OrganizationRead, OrganizationUpdate, OrganizationLeave, MembershipRead, MembershipChangeRole, MembershipRemove,
     InvitationRead, InvitationCreate, InvitationResend, InvitationRevoke, NotificationRead, NotificationManage,
     FileRead, FileUpload, FileDelete}

  predicate HasCapability(role: Role, c: Capability) {
    match role
    case Owner => true
    case Admin => c in ADMIN_CAPABILITIES
    case Member => c in MEMBER_CAPABILITIES
    case Viewer => c in VIEWER_CAPABILITIES
  }

  /** What only the owner may do. */
  const OWNER_ONLY: set<Capability> := {OrganizationDelete, OwnershipTransfer, BillingRead, BillingManage}

  predicate CanAssign(actor: Role, given: Role) {
    || (actor == Owner && given != Owner)
    || (actor == Admin && (given == Member || given == Viewer))
  }

  /** `assertCanManageMembership`; memberships of one organization are told apart by their users. */
  predicate CanManage(actor: Role, self: bool, target: Role, c: Capability) {
    HasCapability(actor, c) && target != Owner && !self && !(actor == Admin && target == Admin)
  }

  predicate CanLeave(role: Role) {
    HasCapability(role, OrganizationLeave) && role != Owner
  }

  function Rank(role: Role): nat {
    match role
    case Owner => 3
    case Admin => 2
    case Member => 1
    case Viewer => 0
  }

  /** What each role may do beyond the one below it; a viewer reads, leaves and minds their own notifications. */
  lemma RolesNest(c: Capability)
    ensures HasCapability(Viewer, c) <==>
              c in {OrganizationRead, OrganizationLeave, MembershipRead, NotificationRead, NotificationManage, FileRead}
    ensures HasCapability(Member, c) <==> HasCapability(Viewer, c) || c in {FileUpload, FileDelete}
    ensures HasCapability(Admin, c) <==>
              HasCapability(Member, c)
              || c in {OrganizationUpdate, MembershipChangeRole, MembershipRemove, InvitationRead, InvitationCreate, InvitationResend, InvitationRevoke}
    ensures HasCapability(Owner, c) <==>
              HasCapability(Admin, c) || c in {OrganizationDelete, OwnershipTransfer, BillingRead, BillingManage}
    ensures Rank(Viewer) < Rank(Member) < Rank(Admin) < Rank(Owner)
  {
  }

  /** Nobody manages, or assigns a role to, anyone at or above their own rank. */
  lemma OnlyDownwards(actor: Role, self: bool, target: Role, given: Role)
    ensures CanManage(actor, self, target, MembershipChangeRole) && CanAssign(actor, given)
            <==> !self && Rank(actor) >= 2 && Rank(target) < Rank(actor) && Rank(given) < Rank(actor)
  {
  }

  lemma OwnerOnlyMeansOwner(role: Role, c: Capability)
    requires c in OWNER_ONLY
    ensures HasCapability(role, c) <==> role == Owner
  {
  }
}
