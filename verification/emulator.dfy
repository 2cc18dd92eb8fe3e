/** The side table that maps a NanoVG context to the user pointer given
    when the context was created (`g_ContextUserPtrMap`). Addresses are
    natural numbers and 0 is the null pointer. */
module Emulator {

  type Address = nat

  const Null: Address := 0

  type UserPtrMap = map<Address, Address>

  /** Only successfully created (non-null) contexts are ever registered. */
  predicate WellFormed(m: UserPtrMap) {
    Null !in m
  }

  /** `nvgCreateInternal`: `created` is what the GL3 backend returned. A
      non-null context is mapped to `userPtr` (replacing any earlier entry);
      a null one leaves the table alone. The context is returned as is. */
  function CreateInternal(m: UserPtrMap, created: Address, userPtr: Address): (r: (UserPtrMap, Address))
    ensures r.1 == created
    ensures created == Null ==> r.0 == m
    ensures created != Null ==> r.0.Keys == m.Keys + {created} && r.0[created] == userPtr
    ensures forall c :: c in m && c != created ==> c in r.0 && r.0[c] == m[c]
    ensures WellFormed(m) ==> WellFormed(r.0)
  {
    if created != Null then (m[created := userPtr], created) else (m, created)
  }

  /** `getUserPtr`: the registered pointer, or null for an unknown context. */
  function GetUserPtr(m: UserPtrMap, ctx: Address): (r: Address)
    ensures ctx in m ==> r == m[ctx]
    ensures ctx !in m ==> r == Null
  {
    if ctx in m then m[ctx] else Null
  }

  /** Looking up a context right after creating it gives its user pointer;
      a failed creation is looked up as null. */
  lemma CreateThenLookup(m: UserPtrMap, created: Address, userPtr: Address)
    requires WellFormed(m)
    ensures GetUserPtr(CreateInternal(m, created, userPtr).0, created) == (if created == Null then Null else userPtr)
  {
  }

  /** Registering the same context twice keeps only the later pointer. */
  lemma LaterRegistrationWins(m: UserPtrMap, ctx: Address, first: Address, second: Address)
    requires ctx != Null
    ensures var m1 := CreateInternal(m, ctx, first).0;
            GetUserPtr(CreateInternal(m1, ctx, second).0, ctx) == second
  {
  }

  /** Creating one context never changes what another context looks up. */
  lemma OtherContextsUnaffected(m: UserPtrMap, created: Address, userPtr: Address, other: Address)
    requires other != created
    ensures GetUserPtr(CreateInternal(m, created, userPtr).0, other) == GetUserPtr(m, other)
  {
  }
}
