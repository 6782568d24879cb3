/** src/constants.rs: names and limits shared by every layer. */
module Constants {
  import opened Text

  const DEFAULT_NAMESPACE := "public"
  const DEFAULT_ORGANIZATION_ID := 1
  const SUPERADMIN_GROUP := "superadmin"
  const ADMIN_GROUP := "admin"
  const USERS_GROUP := "users"
  const MIN_PASSWORD_LENGTH := 8
  const MAX_I64 := 0x7FFF_FFFF_FFFF_FFFF
  const MIN_I64 := -0x8000_0000_0000_0000

  /** Whether `group` reads as `superadmin` once trimmed and case-folded. */
  predicate IsSuperadminName(group: string) {
    EqIgnoreAsciiCase(Trim(group), SUPERADMIN_GROUP)
  }

  /** Whether an anonymous registration must not name `group`. */
  predicate IsPrivilegedGroup(group: string) {
    IsSuperadminName(group) || EqIgnoreAsciiCase(Trim(group), ADMIN_GROUP)
  }

  /** The check looks through padding and case, so it answers alike for a name and for its trimmed form. */
  lemma PrivilegeIgnoresPadding(group: string)
    ensures IsPrivilegedGroup(Trim(group)) == IsPrivilegedGroup(group)
    ensures IsSuperadminName(Trim(group)) == IsSuperadminName(group)
  {
    TrimIdempotent(group);
  }

  lemma DefaultNames()
    ensures IsSuperadminName(SUPERADMIN_GROUP) && IsPrivilegedGroup(ADMIN_GROUP)
    ensures !IsSuperadminName(ADMIN_GROUP) && !IsPrivilegedGroup(USERS_GROUP)
    ensures Trim(SUPERADMIN_GROUP) == SUPERADMIN_GROUP && Trim(ADMIN_GROUP) == ADMIN_GROUP && Trim(USERS_GROUP) ==
            USERS_GROUP
  {}
}
