/**
 `reset_password` run without interruption, over the Valkey keys and the stored
 password hashes.
 */
module PasswordResetService {
  import opened Options

  /** A reset link: its text, and what decoding yields while `now < limit`; a bad signature, type,
      issuer or audience makes it never decode. */
  datatype Link = Link(text: string, decodes: bool, email: string, exp: real, limit: real)

  datatype Reason = InvalidToken | AlreadyUsed | WeakPassword | UnknownUser | SamePassword | NotStored | Raised

  /** The call that raises, and whether it took effect before it did. */
  datatype Exception = Nowhere | InGetDel(taken: bool) | InLookup | InUpdate(written: bool) | InRestore(restored: bool)

  predicate GivesBack(reason: Reason) {
    reason.WeakPassword? || reason.UnknownUser? || reason.SamePassword? || reason.NotStored?
  }

  /** What `str.isupper`, `islower` and `isdigit` say of a character. */
  datatype Classes = Classes(upper: char -> bool, lower: char -> bool, digit: char -> bool)

  predicate IsStrong(password: string, k: Classes) {
    && |password| >= 8
    && (exists c <- password :: k.upper(c))
    && (exists c <- password :: k.lower(c))
    && (exists c <- password :: k.digit(c))
  }

  /** Too short, or without a character of some class; and more characters never make a password weaker. */
  lemma StrengthIs(password: string, more: string, k: Classes)
    ensures !IsStrong(password, k) <==>
            || |password| < 8
            || (forall c <- password :: !k.upper(c))
            || (forall c <- password :: !k.lower(c))
            || (forall c <- password :: !k.digit(c))
    ensures IsStrong(password, k) ==> IsStrong(password + more, k)
  {
    assert forall c <- password :: c in password + more;
  }

  class Service {
    var now: real
    var keys: map<string, real>                 // until when Valkey keeps each link
    var passwords: map<string, Option<string>>  // None for an account without one

    constructor (now: real)
      ensures this.now == now && keys == map[] && passwords == map[]
    {
      this.now := now;
      keys, passwords := map[], map[];
    }

    predicate Decodes(link: Link)
      reads this`now
    {
      link.decodes && link.email != "" && now < link.limit
    }

    predicate Unused(text: string)
      reads this`now, this`keys
    {
      text in keys && now < keys[text]
    }

    /** Why the reset fails, in the order of the checks and of the calls that can raise. */
    function Obstacle(link: Link, password: string, k: Classes, hash: string -> string, stores: bool, ex: Exception)
      : Option<Reason>
      reads this
    {
      if !Decodes(link) then Some(InvalidToken)
      else if ex.InGetDel? then Some(Raised)
      else if !Unused(link.text) then Some(AlreadyUsed)
      else if !IsStrong(password, k) then Some(WeakPassword)
      else if ex.InLookup? then Some(Raised)
      else if link.email !in passwords then Some(UnknownUser)
      else if passwords[link.email] == Some(hash(password)) then Some(SamePassword)
      else if ex.InUpdate? then Some(Raised)
      else if !stores then Some(NotStored)
      else None
    }

    /** The keys after giving the link back, which takes a whole second left. */
    function GivenBack(kept: map<string, real>, link: Link): map<string, real>
      reads this`now
    {
      if link.exp - now >= 1.0 then kept[link.text := now + (link.exp - now).Floor as real] else kept
    }

    /** The keys after an attempt: untouched, the link spent, or the link given back. */
    function KeysAfter(link: Link, reason: Option<Reason>, ex: Exception): map<string, real>
      reads this
    {
      var spent := keys - {link.text};
      if reason == Some(InvalidToken) || ex == InGetDel(false) then keys
      else if reason.Some? && GivesBack(reason.value) && ex != InRestore(false) then GivenBack(spent, link)
      else spent
    }

    /** `_restore_token` */
    method RestoreToken(link: Link)
      modifies this`keys
      ensures keys == GivenBack(old(keys), link)
      ensures link.exp - now >= 1.0 ==> now < keys[link.text] <= link.exp
    {
      if link.exp - now >= 1.0 {
        var remaining := (link.exp - now).Floor;
        assert remaining >= 1;
        keys := keys[link.text := now + remaining as real];
      }
    }

    /** GETDEL */
    method GetDel(text: string) returns (found: bool)
      modifies this`keys
      ensures found == old(Unused(text))
      ensures keys == old(keys) - {text}
    {
      found := text in keys && now < keys[text];
      keys := keys - {text};
    }

    /** `hash` stands for hashing and comparing; `stores` is false when the update finds no row, and
        `revokes` when the account bump cannot be confirmed. The answers are those of the source; a link
        is spent by a reset and by every exception after it was taken. */
    method ResetPassword(link: Link, password: string, k: Classes, hash: string -> string, stores: bool, revokes: bool,
                         ex: Exception)
      returns (success: bool, sessionsRevoked: Option<bool>, ghost reason: Option<Reason>)
      modifies this`keys, this`passwords
      ensures reason == old(Obstacle(link, password, k, hash, stores, ex))
      ensures success <==> reason.None?
      ensures success <==>
                && link.decodes && link.email != "" && now < link.limit
                && link.text in old(keys) && now < old(keys)[link.text]
                && IsStrong(password, k)
                && link.email in old(passwords) && old(passwords)[link.email] != Some(hash(password)) && stores
                && !ex.InGetDel? && !ex.InLookup? && !ex.InUpdate?
      ensures reason == Some(InvalidToken) <==> !link.decodes || link.email == "" || link.limit <= now
      ensures reason == Some(AlreadyUsed) <==>
                && reason != Some(InvalidToken) && !ex.InGetDel?
                && (link.text !in old(keys) || old(keys)[link.text] <= now)
      ensures reason == Some(WeakPassword) <==>
                && reason != Some(InvalidToken) && reason != Some(AlreadyUsed) && !ex.InGetDel?
                && !IsStrong(password, k)
      ensures reason == Some(UnknownUser) ==> link.email !in passwords
      ensures reason == Some(SamePassword) ==> link.email in passwords && passwords[link.email] == Some(hash(password))
      ensures sessionsRevoked == if success then Some(revokes) else None
      ensures passwords == if success || (reason == Some(Raised) && ex == InUpdate(true))
                           then old(passwords)[link.email := Some(hash(password))] else old(passwords)
      ensures keys == old(KeysAfter(link, reason, ex))
      ensures success || reason == Some(AlreadyUsed) || (reason == Some(Raised) && ex != InGetDel(false)) ==>
              link.text !in keys
      ensures keys - {link.text} == old(keys) - {link.text}
      ensures ex != InRestore(false) && (reason == Some(WeakPassword) || reason == Some(UnknownUser)
                || reason == Some(SamePassword) || reason == Some(NotStored)) ==>
                (Unused(link.text) <==> link.exp - now >= 1.0) && (link.text in keys ==> keys[link.text] <= link.exp)
    {
      hide IsStrong;
      success, sessionsRevoked, reason := false, None, Obstacle(link, password, k, hash, stores, ex);
      if !link.decodes || link.email == "" || link.limit <= now {
        return;
      }
      if ex.InGetDel? {
        if ex.taken {
          keys := keys - {link.text};
        }
        return;
      }
      var found := GetDel(link.text);
      if !found {
        return;
      }
      if !IsStrong(password, k) {
        TryRestore(link, ex);
        return;
      }
      if ex.InLookup? {
        return;
      }
      if link.email !in passwords {
        TryRestore(link, ex);
        return;
      }
      if passwords[link.email] == Some(hash(password)) {
        TryRestore(link, ex);
        return;
      }
      if ex.InUpdate? {
        if ex.written {
          passwords := passwords[link.email := Some(hash(password))];
        }
        return;
      }
      if !stores {
        TryRestore(link, ex);
        return;
      }
      passwords := passwords[link.email := Some(hash(password))];
      success, sessionsRevoked := true, Some(revokes);
    }

    /** A link that has reset a password resets none again, however late, with whatever password. */
    method ResetTwice(link: Link, first: string, again: Link, second: string, k: Classes, hash: string -> string,
                      later: real, ex: Exception)
      returns (done: bool, redone: bool)
      requires again.text == link.text && now <= later
      modifies this
      ensures done ==> !redone && link.email in old(passwords)
      ensures done ==> passwords == old(passwords)[link.email := Some(hash(first))]
    {
      var revoked;
      ghost var reason;
      done, revoked, reason := ResetPassword(link, first, k, hash, true, true, Nowhere);
      now := later;
      redone, revoked, reason := ResetPassword(again, second, k, hash, true, true, ex);
    }

    method TryRestore(link: Link, ex: Exception)
      modifies this`keys
      ensures keys == if ex == InRestore(false) then old(keys) else GivenBack(old(keys), link)
      ensures ex != InRestore(false) && link.exp - now >= 1.0 ==> now < keys[link.text] <= link.exp
    {
      if ex != InRestore(false) {
        RestoreToken(link);
      }
    }
  }
}
