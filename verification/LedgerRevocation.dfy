/** The one revocation that fails on the schema: on behalf of a device, of a member with open invites. */
module LedgerRevocation {
  import opened Basics
  import opened Outcomes
  import opened FactLog
  import opened Ledger
  import opened LedgerInvariant
  import opened LedgerOperations
  import opened LedgerRuns
  import opened LedgerStart

  lemma JustOpened(t: Tables, d: DeviceId, name: string, id: InviteId, secret: nat, now: Time)
    requires IsActiveMember(t, d) && CreateInvite(t, name, 0, MemberActor(d), id, secret, now).1.Ok?
    ensures var s := ExpireInvites(CreateInvite(t, name, 0, MemberActor(d), id, secret, now).0, now);
            IssuedBy(s, d) != [] && Revocable(s, d, t.members[d].revision)
  {
    hide Text.ValidLabel, Text.Lower, WithinMemberLimits;
    var u := CreateInvite(t, name, 0, MemberActor(d), id, secret, now).0;
    var s := ExpireInvites(u, now);
    assert u.members == t.members && id in s.invites && s.invites[id].issuer == MemberActor(d);
    assert id in IssuedBy(s, d);
  }

  /** A member that has just opened an invite cannot be revoked on behalf of a device. */
  lemma RevokeAbortsAfterInvite(t: Tables, d: DeviceId, name: string, id: InviteId, secret: nat, other: DeviceId,
                                now: Time)
    requires Inv(t) && IsActiveMember(t, d) && t.members[d].revision > 0
    requires CreateInvite(t, name, 0, MemberActor(d), id, secret, now).1.Ok? && Tally(t.audit, id, Created) == 0
    ensures var u := CreateInvite(t, name, 0, MemberActor(d), id, secret, now).0;
            Revoke(u, d, t.members[d].revision, DeviceActor(other), now).1 == Err(ConstraintViolation)
  {
    var u := CreateInvite(t, name, 0, MemberActor(d), id, secret, now).0;
    assert Inv(u) by { CreateInviteKeeps(t, name, 0, MemberActor(d), id, secret, now); }
    var s := ExpireInvites(u, now);
    assert IssuedBy(s, d) != [] && Revocable(s, d, t.members[d].revision) by {
      JustOpened(t, d, name, id, secret, now);
    }
    hide CreateInvite;
    WhenRevokeAborts(u, d, t.members[d].revision, DeviceActor(other), now);
  }

  function OneMember(d: DeviceId, now: Time): map<DeviceId, Member> {
    map[d := Member(0, "alice", 1, now, None)]
  }

  lemma OneMemberMigrates(d: DeviceId, now: Time)
    ensures Migratable([], map[], OneMember(d, now), DEFAULT_MAX_PENDING)
    ensures Identities(map[], OneMember(d, now), map[])
  {
    assert ActiveMembers(OneMember(d, now)) == {d};
  }

  /** Such a state is reachable: a server that starts with one member, and one invite opened by it. */
  lemma RevokeCanAbort(d: DeviceId, other: DeviceId, now: Time)
    ensures var t := Migrated([], map[], OneMember(d, now), DEFAULT_MAX_PENDING);
            var ops := [CreateInviteOp("bob", 0, MemberActor(d), 0, 0, now)];
            && Inv(t) && FreshRun(t, ops)
            && Revoke(Run(t, ops), d, 1, DeviceActor(other), now).1 == Err(ConstraintViolation)
  {
    var t := Migrated([], map[], OneMember(d, now), DEFAULT_MAX_PENDING);
    var op := CreateInviteOp("bob", 0, MemberActor(d), 0, 0, now);
    OneMemberMigrates(d, now);
    MigratedStoreIsSound([], map[], OneMember(d, now), DEFAULT_MAX_PENDING);
    assert Run(t, [op]) == Apply(t, op) by { assert [op][1..] == []; }
    assert FreshRun(t, [op]) by { assert [op][1..] == []; }
    OpensOne(t, d, now);
    RevokeAbortsAfterInvite(t, d, "bob", 0, 0, other, now);
  }

  lemma OpensOne(t: Tables, d: DeviceId, now: Time)
    requires t == Migrated([], map[], OneMember(d, now), DEFAULT_MAX_PENDING)
    ensures CreateInvite(t, "bob", 0, MemberActor(d), 0, 0, now).1.Ok?
  {
    assert Text.ValidLabel("bob");
    var s := ExpireInvites(t, now);
    assert DueInvites(t, now) == [];
    assert s.invites == map[] && s.audit == [];
    assert InvitesOf(s, d) == {};
    assert Text.Lower("bob")[0] == 'b' && Text.Lower("alice")[0] == 'a';
    assert !NameOfMember(s, Text.Lower("bob"));
  }
}
