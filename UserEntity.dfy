/**
 * The user record (`SUserEntity`) and the hook gorm runs before inserting it:
 * a fresh id, a hashed password and a normalised username.
 */
module UserEntity {
  import opened Wrappers
  import GoText

  /** The stored username: trimmed, then HTML-escaped, then lower-cased. */
  function NormalizeUsername(u: string): string {
    GoText.ToLower(GoText.EscapeHtml(GoText.TrimSpace(u)))
  }

  /** A normalised username has no surrounding white space, no capitals and no raw `<`, `>`, `"` or `'`. */
  lemma UsernameClean(u: string)
    ensures var r := NormalizeUsername(u);
            && (r == [] || (!GoText.IsSpace(r[0]) && !GoText.IsSpace(r[|r| - 1])))
            && (forall i :: 0 <= i < |r| ==> !GoText.IsAsciiUpper(r[i]) && !GoText.IsHtmlSpecial(r[i]))
  {
    var t := GoText.TrimSpace(u);
    var e := GoText.EscapeHtml(t);
    var r := GoText.ToLower(e);
    assert NormalizeUsername(u) == r;
    GoText.ToLowerSpec(e);
    var l := GoText.ToLower(t);
    GoText.LowerEscapeCommute(t);
    assert r == GoText.EscapeHtml(l);
    if t != [] {
      FirstNotSpace(t, l);
      GoText.EscapeLast(l);
    }
  }

  /** Lower-casing and then escaping a text that starts and ends with a non-space gives such a text too. */
  lemma FirstNotSpace(t: string, l: string)
    requires t != [] && l == GoText.ToLower(t)
    requires !GoText.IsSpace(t[0]) && !GoText.IsSpace(t[|t| - 1])
    ensures var r := GoText.EscapeHtml(l);
            r != [] && !GoText.IsSpace(r[0]) && !GoText.IsSpace(l[|l| - 1])
  {
    assert l[0] == GoText.LowerChar(t[0]) && l[|l| - 1] == GoText.LowerChar(t[|t| - 1]);
    LowerNotSpace(t[0]);
    LowerNotSpace(t[|t| - 1]);
    var r := GoText.EscapeHtml(l);
    assert r == GoText.EscapeChar(l[0]) + GoText.EscapeHtml(l[1..]);
    EscapeHead(l[0]);
    assert r[0] == GoText.EscapeChar(l[0])[0];
  }

  /** Lower-casing never turns a character into white space. */
  lemma LowerNotSpace(c: char)
    requires !GoText.IsSpace(c)
    ensures !GoText.IsSpace(GoText.LowerChar(c))
  {
  }

  /** An escaped character starts with `&` or is the character itself. */
  lemma EscapeHead(c: char)
    ensures |GoText.EscapeChar(c)| > 0
    ensures GoText.EscapeChar(c)[0] == '&' || GoText.EscapeChar(c) == [c]
  {
  }

  /** Normalising loses nothing but the surrounding white space and the case: unescaping gives the trimmed, lower-cased name. */
  lemma UsernameRoundTrip(u: string)
    ensures GoText.UnescapeHtml(NormalizeUsername(u)) == GoText.ToLower(GoText.TrimSpace(u))
  {
    GoText.LowerEscapeCommute(GoText.TrimSpace(u));
    GoText.EscapeRoundTrip(GoText.ToLower(GoText.TrimSpace(u)));
  }

  /**
   * `SUserEntity`, without its many-to-many associations. The id is the UUID's
   * text and the times are instants.
   */
  class SUserEntity {
    var id: string
    var username: string
    var fullname: string
    var phone: string
    var email: string
    var birthday: int
    var password: string
    var createdAt: int
    var updatedAt: int

    constructor (username: string, fullname: string, phone: string, email: string, birthday: int, password: string)
      ensures this.id == "" && this.username == username && this.fullname == fullname && this.phone == phone
      ensures this.email == email && this.birthday == birthday && this.password == password
      ensures this.createdAt == 0 && this.updatedAt == 0
    {
      this.id := "";
      this.username := username;
      this.fullname := fullname;
      this.phone := phone;
      this.email := email;
      this.birthday := birthday;
      this.password := password;
      this.createdAt := 0;
      this.updatedAt := 0;
    }

    /**
     * `BeforeCreate`. `newId` is what UUID generation produced and `hashed` what
     * bcrypt would produce for the current password; a hashing failure is
     * swallowed, so only the UUID outcome decides the returned error.
     */
    method BeforeCreate(newId: Result<string, string>, hashed: Result<string, string>) returns (err: Option<string>)
      modifies this
      ensures newId.Ok? ==> id == newId.value && err.None?
      ensures newId.Err? ==> id == old(id) && err == Some(newId.error)
      ensures old(password) != "" && hashed.Ok? ==> password == hashed.value
      ensures old(password) == "" || hashed.Err? ==> password == old(password)
      ensures username == NormalizeUsername(old(username))
      ensures fullname == old(fullname) && phone == old(phone) && email == old(email)
      ensures birthday == old(birthday) && createdAt == old(createdAt) && updatedAt == old(updatedAt)
    {
      if newId.Ok? {
        id := newId.value;
        err := None;
      } else {
        err := Some(newId.error);
      }
      if password != "" {
        if hashed.Ok? {
          password := hashed.value;
        }
      }
      username := NormalizeUsername(username);
    }
  }
}
