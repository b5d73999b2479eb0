/**
 The database session one request works through, and the repositories that
 share it. Writes go to the working tables; a commit publishes them, a rollback
 forgets them. `outages` names the commits the database will refuse.
 */
module Persistence {
  import opened Outcomes
  import opened Identity
  import opened Requests

  class Session {
    var committed: Tables
    var working: Tables
    var commits: nat
    var nextId: nat
    const outages: set<nat>

    constructor (tables: Tables, nextId: nat, outages: set<nat>)
      ensures committed == tables && Clean()
      ensures commits == 0 && this.nextId == nextId && this.outages == outages
    {
      this.committed, this.working := tables, tables;
      this.commits, this.nextId, this.outages := 0, nextId, outages;
    }

    ghost predicate Clean()
      reads this
    {
      working == committed
    }

    /**
     How a request ended that started after `before` commits and goes through the
     given stages, one per commit: with a storage failure at the first refused
     commit, leaving the stage reached so far, or with the specified reply.
     */
    ghost predicate Ended(before: nat, stages: seq<Tables>, spec: Reply, outcome: Outcome)
      reads this
    {
      && Clean()
      && before <= commits
      && if outcome == Failed(Storage) then
           && before < commits <= before + |stages|
           && commits - 1 in outages && (forall n :: before <= n < commits - 1 ==> n !in outages)
           && committed == stages[commits - 1 - before]
         else
           && (forall n :: before <= n < commits ==> n !in outages)
           && outcome == spec.outcome && committed == spec.tables
    }

    method Commit() returns (ok: bool)
      modifies this
      ensures Clean() && commits == old(commits) + 1 && nextId == old(nextId)
      ensures ok == (old(commits) !in outages)
      ensures committed == if ok then old(working) else old(committed)
    {
      ok := commits !in outages;
      commits := commits + 1;
      if ok {
        committed := working;
      } else {
        Rollback();
      }
    }

    method Rollback()
      modifies this`working
      ensures Clean()
    {
      working := committed;
    }

    method FreshId() returns (id: nat)
      modifies this`nextId
      ensures id == old(nextId) && nextId == id + 1
    {
      id, nextId := nextId, nextId + 1;
    }
  }

  class UserRepository {
    const db: Session

    constructor (db: Session)
      ensures this.db == db
    {
      this.db := db;
    }

    method CreateUser(email: string, password: string, role: Role, verified: bool, now: Time)
      returns (id: UserId, error: Option<Error>)
      requires db.Clean()
      modifies db
      ensures db.Clean()
      ensures id == old(db.nextId)
      ensures email in old(db.committed).emails ==> error == Some(DuplicateEmail) && unchanged(db)
      ensures email !in old(db.committed).emails ==>
        && db.nextId == id + 1 && db.commits == old(db.commits) + 1
        && error == (if old(db.commits) in db.outages then Some(Storage) else None)
        && db.committed == (if error == None then InsertUser(old(db.committed), id, NewUser(email, password, role, verified, now))
                            else old(db.committed))
    {
      if email in db.working.emails {
        return db.nextId, Some(DuplicateEmail);
      }
      id := db.FreshId();
      db.working := InsertUser(db.working, id, NewUser(email, password, role, verified, now));
      var ok := db.Commit();
      error := if ok then None else Some(Storage);
    }

    /**
     Assigns the given columns one after the other; commits only when asked to. A
     name that is no editable column, or an address of another user, changes nothing.
     */
    method UpdateUser(u: UserId, fields: seq<Field>, commit: bool) returns (error: Option<Error>)
      modifies db
      ensures db.nextId == old(db.nextId)
      ensures (exists f :: f in fields && f.Unknown?) ==> error == Some(UnknownField) && unchanged(db)
      ensures (forall f :: f in fields ==> !f.Unknown?) && u !in old(db.working).users ==>
        error == Some(RecordNotFound) && unchanged(db)
      ensures (forall f :: f in fields ==> !f.Unknown?) && u in old(db.working).users ==>
        var t := old(db.working);
        var row := SetFields(t.users[u], fields);
        var updated := ReplaceUser(t, u, row);
        if row.email != t.users[u].email && row.email in t.emails && t.emails[row.email] != u then
          error == Some(DuplicateEmail) && unchanged(db)
        else if commit then
          && db.Clean() && db.commits == old(db.commits) + 1
          && error == (if old(db.commits) in db.outages then Some(Storage) else None)
          && db.committed == (if error == None then updated else old(db.committed))
        else
          error == None && db.working == updated && db.committed == old(db.committed) && db.commits == old(db.commits)
    {
      if exists f :: f in fields && f.Unknown? {
        return Some(UnknownField);
      }
      if u !in db.working.users {
        return Some(RecordNotFound);
      }
      var row := db.working.users[u];
      var address := AddressAfter(fields, row.email);
      AddressIsSet(row, fields);
      if address != row.email && address in db.working.emails && db.working.emails[address] != u {
        return Some(DuplicateEmail);
      }
      for i := 0 to |fields|
        invariant row == SetFields(db.working.users[u], fields[..i])
      {
        assert fields[..i + 1][..i] == fields[..i];
        row := SetField(row, fields[i]);
      }
      assert fields[..|fields|] == fields;
      db.working := ReplaceUser(db.working, u, row);
      var ok := true;
      if commit {
        ok := db.Commit();
      }
      error := if ok then None else Some(Storage);
    }

    method Delete(u: UserId) returns (error: Option<Error>)
      modifies db
      ensures db.nextId == old(db.nextId)
      ensures u !in old(db.working).users ==> error == Some(RecordNotFound) && unchanged(db)
      ensures u in old(db.working).users ==>
        && db.Clean() && db.commits == old(db.commits) + 1
        && error == (if old(db.commits) in db.outages then Some(Storage) else None)
        && db.committed == (if error == None then DeleteUser(old(db.working), u) else old(db.committed))
    {
      if u !in db.working.users {
        return Some(RecordNotFound);
      }
      db.working := DeleteUser(db.working, u);
      var ok := db.Commit();
      error := if ok then None else Some(Storage);
    }
  }

  class RefreshTokenRepository {
    const db: Session

    constructor (db: Session)
      ensures this.db == db
    {
      this.db := db;
    }

    method Create(u: UserId, expiresAt: Time) returns (d: Digest, ok: bool)
      modifies db
      ensures d == old(db.nextId) && db.nextId == d + 1
      ensures db.Clean() && db.commits == old(db.commits) + 1 && ok == (old(db.commits) !in db.outages)
      ensures db.committed == if ok then InsertRefresh(old(db.working), d, RefreshRow(u, expiresAt, false, d)) else old(db.committed)
    {
      d := db.FreshId();
      db.working := InsertRefresh(db.working, d, RefreshRow(u, expiresAt, false, d));
      ok := db.Commit();
    }

    /** Revokes the old token and inserts its successor in one commit, whatever the old row's flag says. */
    method RotateToken(presented: Digest, u: UserId, expiresAt: Time) returns (d: Digest, error: Option<Error>)
      modifies db
      ensures d == old(db.nextId)
      ensures presented !in old(db.working).refresh ==> error == Some(RecordNotFound) && unchanged(db)
      ensures presented in old(db.working).refresh ==>
        && db.nextId == d + 1 && db.Clean() && db.commits == old(db.commits) + 1
        && error == (if old(db.commits) in db.outages then Some(Storage) else None)
        && db.committed == (if error == None then Rotate(old(db.working), presented, u, d, expiresAt) else old(db.committed))
    {
      if presented !in db.working.refresh {
        return db.nextId, Some(RecordNotFound);
      }
      d := db.FreshId();
      var login := db.working.refresh[presented].login;
      db.working := Revoke(db.working, presented);
      db.working := InsertRefresh(db.working, d, RefreshRow(u, expiresAt, false, login));
      var ok := db.Commit();
      error := if ok then None else Some(Storage);
    }

    method RevokeToken(d: Digest) returns (error: Option<Error>)
      modifies db
      ensures db.nextId == old(db.nextId)
      ensures d !in old(db.working).refresh ==> error == Some(RecordNotFound) && unchanged(db)
      ensures d in old(db.working).refresh ==>
        && db.Clean() && db.commits == old(db.commits) + 1
        && error == (if old(db.commits) in db.outages then Some(Storage) else None)
        && db.committed == (if error == None then Revoke(old(db.working), d) else old(db.committed))
    {
      if d !in db.working.refresh {
        return Some(RecordNotFound);
      }
      db.working := Revoke(db.working, d);
      var ok := db.Commit();
      error := if ok then None else Some(Storage);
    }

    method RevokeAllTokens(u: UserId, commit: bool) returns (ok: bool)
      modifies db
      ensures db.nextId == old(db.nextId)
      ensures !commit ==>
        && ok && db.working == RevokeAll(old(db.working), u)
        && db.committed == old(db.committed) && db.commits == old(db.commits)
      ensures commit ==>
        && db.Clean() && db.commits == old(db.commits) + 1 && ok == (old(db.commits) !in db.outages)
        && db.committed == if ok then RevokeAll(old(db.working), u) else old(db.committed)
    {
      db.working := RevokeAll(db.working, u);
      ok := true;
      if commit {
        ok := db.Commit();
      }
    }

    method RevokeAllTokensExcept(u: UserId, keep: Digest, commit: bool) returns (ok: bool)
      modifies db
      ensures db.nextId == old(db.nextId)
      ensures !commit ==>
        && ok && db.working == RevokeAllExcept(old(db.working), u, keep)
        && db.committed == old(db.committed) && db.commits == old(db.commits)
      ensures commit ==>
        && db.Clean() && db.commits == old(db.commits) + 1 && ok == (old(db.commits) !in db.outages)
        && db.committed == if ok then RevokeAllExcept(old(db.working), u, keep) else old(db.committed)
    {
      db.working := RevokeAllExcept(db.working, u, keep);
      ok := true;
      if commit {
        ok := db.Commit();
      }
    }

    method DeleteExpiredTokens(now: Time) returns (ok: bool)
      modifies db
      ensures db.nextId == old(db.nextId)
      ensures db.Clean() && db.commits == old(db.commits) + 1 && ok == (old(db.commits) !in db.outages)
      ensures db.committed == if ok then DeleteExpired(old(db.working), now) else old(db.committed)
    {
      db.working := DeleteExpired(db.working, now);
      ok := db.Commit();
    }
  }

  class PasswordResetRepository {
    const db: Session

    constructor (db: Session)
      ensures this.db == db
    {
      this.db := db;
    }

    method CreateToken(u: UserId, expiresAt: Time) returns (d: Digest, ok: bool)
      modifies db
      ensures d == old(db.nextId) && db.nextId == d + 1
      ensures db.Clean() && db.commits == old(db.commits) + 1 && ok == (old(db.commits) !in db.outages)
      ensures db.committed == if ok then old(db.working).(resets := old(db.working).resets[d := OneTimeRow(u, expiresAt, false)])
                              else old(db.committed)
    {
      d := db.FreshId();
      db.working := db.working.(resets := db.working.resets[d := OneTimeRow(u, expiresAt, false)]);
      ok := db.Commit();
    }

    method InvalidateUnusedTokens(u: UserId) returns (ok: bool)
      modifies db
      ensures db.nextId == old(db.nextId)
      ensures db.Clean() && db.commits == old(db.commits) + 1 && ok == (old(db.commits) !in db.outages)
      ensures db.committed == if ok then old(db.working).(resets := UseAll(old(db.working).resets, u)) else old(db.committed)
    {
      db.working := db.working.(resets := UseAll(db.working.resets, u));
      ok := db.Commit();
    }

    /** The conditional update: true iff this call turned an unused row into a used one. */
    method ConsumeToken(d: Digest, commit: bool) returns (consumed: bool, ok: bool)
      modifies db
      ensures db.nextId == old(db.nextId)
      ensures consumed <==> d in old(db.working).resets && !old(db.working).resets[d].isUsed
      ensures
        var after := if consumed then old(db.working).(resets := Use(old(db.working).resets, d)) else old(db.working);
        if commit then
          && db.Clean() && db.commits == old(db.commits) + 1 && ok == (old(db.commits) !in db.outages)
          && db.committed == if ok then after else old(db.committed)
        else
          ok && db.working == after && db.committed == old(db.committed) && db.commits == old(db.commits)
    {
      consumed := d in db.working.resets && !db.working.resets[d].isUsed;
      if consumed {
        db.working := db.working.(resets := Use(db.working.resets, d));
      }
      ok := true;
      if commit {
        ok := db.Commit();
      }
    }
  }

  class EmailVerificationRepository {
    const db: Session

    constructor (db: Session)
      ensures this.db == db
    {
      this.db := db;
    }

    method CreateToken(u: UserId, expiresAt: Time) returns (d: Digest, ok: bool)
      modifies db
      ensures d == old(db.nextId) && db.nextId == d + 1
      ensures db.Clean() && db.commits == old(db.commits) + 1 && ok == (old(db.commits) !in db.outages)
      ensures db.committed ==
        if ok then old(db.working).(verifications := old(db.working).verifications[d := OneTimeRow(u, expiresAt, false)])
        else old(db.committed)
    {
      d := db.FreshId();
      db.working := db.working.(verifications := db.working.verifications[d := OneTimeRow(u, expiresAt, false)]);
      ok := db.Commit();
    }

    method InvalidateUnusedTokens(u: UserId) returns (ok: bool)
      modifies db
      ensures db.nextId == old(db.nextId)
      ensures db.Clean() && db.commits == old(db.commits) + 1 && ok == (old(db.commits) !in db.outages)
      ensures db.committed == if ok then old(db.working).(verifications := UseAll(old(db.working).verifications, u)) else old(db.committed)
    {
      db.working := db.working.(verifications := UseAll(db.working.verifications, u));
      ok := db.Commit();
    }

    method MarkAsUsed(d: Digest) returns (error: Option<Error>)
      modifies db
      ensures db.nextId == old(db.nextId)
      ensures d !in old(db.working).verifications ==> error == Some(RecordNotFound) && unchanged(db)
      ensures d in old(db.working).verifications ==>
        && db.Clean() && db.commits == old(db.commits) + 1
        && error == (if old(db.commits) in db.outages then Some(Storage) else None)
        && db.committed == (if error == None then old(db.working).(verifications := Use(old(db.working).verifications, d))
                            else old(db.committed))
    {
      if d !in db.working.verifications {
        return Some(RecordNotFound);
      }
      db.working := db.working.(verifications := Use(db.working.verifications, d));
      var ok := db.Commit();
      error := if ok then None else Some(Storage);
    }
  }
}
