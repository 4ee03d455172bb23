/**
  * A user record of the `authorized_users` collection as the screens and utilities read it:
  * every field but the document id may be missing. `isActive` is kept as the stored boolean so
  * that "missing" and `false` stay apart.
  */
module Users {
  import opened Wrappers
  import opened Text

  datatype User = User(
    id: string,
    email: Option<string>,
    name: Option<string>,
    phone: Option<string>,
    role: Option<string>,
    storeId: Option<string>,
    storeName: Option<string>,
    status: Option<string>,
    isActive: Option<bool>,
    password: Option<string>)

  /** A string field JavaScript treats as true: present and not empty. */
  predicate Present(s: Option<string>) {
    s.Some? && s.value != ""
  }

  /** `user.field ? user.field.toLowerCase() : ''` */
  function LowerOrEmpty(s: Option<string>): string {
    if Present(s) then Lower(s.value) else ""
  }

  /** The test `u.email && u.email.toLowerCase() === email.toLowerCase()` used to look users up. */
  function EmailMatches(email: string): User -> bool {
    (u: User) => Present(u.email) && Lower(u.email.value) == Lower(email)
  }

  /** A character `[^\s@]` accepts: neither whitespace nor `@`. */
  predicate EmailChar(c: char) {
    !IsSpace(c) && c != '@'
  }

  predicate EmailChars(s: string) {
    forall i :: 0 <= i < |s| ==> EmailChar(s[i])
  }

  /** The domain part `[^\s@]+\.[^\s@]+`: no whitespace or `@`, and a dot with at least one
      character on each side. */
  predicate EmailDomain(d: string) {
    EmailChars(d) && exists i :: 0 < i < |d| - 1 && d[i] == '.'
  }

  /** The email pattern `^[^\s@]+@[^\s@]+\.[^\s@]+$` of the user forms: a non-empty local part,
      the first `@`, and a domain. */
  predicate ValidEmail(s: string) {
    var at := IndexOf(s, '@');
    at < |s| && 0 < at && EmailChars(s[..at]) && EmailDomain(s[at + 1..])
  }

  /** A valid email has exactly one `@`, no whitespace, and splits into a non-empty local part,
      a non-empty name before a dot and a non-empty name after it. */
  lemma EmailParts(s: string) returns (local: string, host: string, top: string)
    requires ValidEmail(s)
    ensures s == local + "@" + host + "." + top
    ensures |local| > 0 && |host| > 0 && |top| > 0
    ensures EmailChars(local) && EmailChars(host) && EmailChars(top)
    ensures forall i, j :: 0 <= i < |s| && 0 <= j < |s| && s[i] == '@' && s[j] == '@' ==> i == j
    ensures forall i :: 0 <= i < |s| ==> !IsSpace(s[i])
  {
    var at := IndexOf(s, '@');
    var d := s[at + 1..];
    var k :| 0 < k < |d| - 1 && d[k] == '.';
    local, host, top := s[..at], d[..k], d[k + 1..];
    assert s == s[..at] + "@" + d;
    assert d == host + "." + top;
    forall i | 0 <= i < |s|
      ensures !IsSpace(s[i]) && (s[i] == '@' ==> i == at)
    {
      if i > at {
        assert s[i] == d[i - at - 1];
      } else if i < at {
        assert s[i] == s[..at][i];
      }
    }
  }

  /** Every address built from such parts passes the pattern. */
  lemma EmailFromParts(local: string, host: string, top: string)
    requires |local| > 0 && |host| > 0 && |top| > 0
    requires EmailChars(local) && EmailChars(host) && EmailChars(top)
    ensures ValidEmail(local + "@" + host + "." + top)
  {
    var s := local + "@" + host + "." + top;
    var d := host + "." + top;
    assert s == local + "@" + d;
    assert s[|local|] == '@';
    assert IndexOf(s, '@') == |local| by {
      forall j | 0 <= j < |local|
        ensures s[j] != '@'
      {
        assert s[j] == local[j];
      }
    }
    assert s[..|local|] == local && s[|local| + 1..] == d;
    assert d[|host|] == '.';
    forall i | 0 <= i < |d|
      ensures EmailChar(d[i])
    {
      if i > |host| {
        assert d[i] == top[i - |host| - 1];
      } else if i < |host| {
        assert d[i] == host[i];
      }
    }
  }

  /** Lower-casing keeps a valid email valid: it changes only letters. */
  lemma LowerKeepsEmailValid(s: string)
    requires ValidEmail(s)
    ensures ValidEmail(Lower(s))
  {
    var local, host, top := EmailParts(s);
    LowerChars(local);
    LowerChars(host);
    LowerChars(top);
    LowerAppend(local + "@" + host + ".", top);
    LowerAppend(local + "@" + host, ".");
    LowerAppend(local + "@", host);
    LowerAppend(local, "@");
    assert Lower("@") == "@" && Lower(".") == ".";
    EmailFromParts(Lower(local), Lower(host), Lower(top));
  }

  lemma LowerChars(s: string)
    requires EmailChars(s)
    ensures EmailChars(Lower(s))
  {
    forall i | 0 <= i < |s|
      ensures EmailChar(Lower(s)[i])
    {
      assert Lower(s)[i] == LowerChar(s[i]);
    }
  }
}
