/** Who may change a product comment. */
module Discussion {
  import opened Entities

  /** A comment may be deleted by its author or by an administrator. */
  predicate MayDelete(caller: Id, callerRole: string, c: Comment) {
    c.user == caller || callerRole == Admin
  }

  /** A comment may be edited by its author only; administrators are not exempt. */
  predicate MayEdit(caller: Id, c: Comment) {
    c.user == caller
  }

  /** Whoever may edit a comment may also delete it, and an administrator who did not write a
      comment may delete it but not edit it. */
  lemma EditImpliesDelete(caller: Id, callerRole: string, c: Comment)
    ensures MayEdit(caller, c) ==> MayDelete(caller, callerRole, c)
    ensures callerRole == Admin && c.user != caller ==> MayDelete(caller, callerRole, c) && !MayEdit(caller, c)
  {
  }
}
