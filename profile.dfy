/** How a User's email, display name and avatar are derived from an identity
    provider profile. The same rule serves the `user.created` and
    `user.updated` webhook events and, for a profile that carries an address
    list, the read-repair in getUserData. */
module Profile {
  import opened Records

  /** The profile fields the server reads. `None` stands for a field that is
      absent, null or undefined. */
  datatype ProviderProfile = ProviderProfile(
    emailAddresses: Option<seq<string>>,
    firstName: Option<string>,
    lastName: Option<string>,
    imageUrl: Option<string>)

  /** The three User fields a profile determines. */
  datatype ProfileFields = ProfileFields(email: string, name: string, imageUrl: string)

  /** The ECMAScript WhiteSpace and LineTerminator code points: exactly what
      String.prototype.trim removes from either end. */
  predicate IsJsSpace(c: char) {
    || c == '\t' || c == '\n' || c == '\U{000B}' || c == '\U{000C}' || c == '\r'
    || c == ' ' || c == '\U{00A0}' || c == '\U{1680}'
    || ('\U{2000}' <= c <= '\U{200A}')
    || c == '\U{2028}' || c == '\U{2029}' || c == '\U{202F}' || c == '\U{205F}'
    || c == '\U{3000}' || c == '\U{FEFF}'
  }

  /** Neither end of `s` is white space. */
  predicate Trimmed(s: string) {
    s == [] || (!IsJsSpace(s[0]) && !IsJsSpace(s[|s| - 1]))
  }

  /** `s` without its leading white space: a suffix of `s`, all of whose
      dropped characters are white space and whose first character is not. */
  function TrimStart(s: string): (r: string)
    ensures |r| <= |s| && r == s[|s| - |r|..]
    ensures forall i :: 0 <= i < |s| - |r| ==> IsJsSpace(s[i])
    ensures r == [] || !IsJsSpace(r[0])
  {
    if |s| > 0 && IsJsSpace(s[0]) then TrimStart(s[1..]) else s
  }

  /** `s` without its trailing white space: a prefix of `s`, all of whose
      dropped characters are white space and whose last character is not. */
  function TrimEnd(s: string): (r: string)
    ensures |r| <= |s| && r == s[..|r|]
    ensures forall i :: |r| <= i < |s| ==> IsJsSpace(s[i])
    ensures r == [] || !IsJsSpace(r[|r| - 1])
  {
    if |s| > 0 && IsJsSpace(s[|s| - 1]) then TrimEnd(s[..|s| - 1]) else s
  }

  /** JavaScript `s.trim()`: the contiguous middle of `s` left once white space
      is removed from both ends; it is Trimmed and everything outside it is
      white space. */
  function Trim(s: string): (r: string)
    ensures Trimmed(r)
    ensures var a := |s| - |TrimStart(s)|;
      && a + |r| <= |s| && r == s[a..a + |r|]
      && (forall i :: 0 <= i < a ==> IsJsSpace(s[i]))
      && (forall i :: a + |r| <= i < |s| ==> IsJsSpace(s[i]))
  {
    TrimEnd(TrimStart(s))
  }

  /** Trimming a trimmed string changes nothing; in particular trim is idempotent. */
  lemma TrimOfTrimmed(s: string)
    requires Trimmed(s)
    ensures Trim(s) == s
  {
    assert TrimStart(s) == s;
  }

  lemma TrimIdempotent(s: string)
    ensures Trim(Trim(s)) == Trim(s)
  {
    TrimOfTrimmed(Trim(s));
  }

  /** The trimmed string is empty exactly when every character is white space. */
  lemma TrimEmptyIffBlank(s: string)
    ensures Trim(s) == [] <==> Blank(s)
  {
  }

  /** JavaScript `v || ""` on an optional string. */
  function OrEmpty(v: Option<string>): (r: string)
    ensures v.Some? ==> r == v.value
    ensures v.None? ==> r == ""
  {
    match v
    case Some(s) => s
    case None => ""
  }

  /** The first email address, or "" when the list is absent or empty. */
  function FirstEmail(addresses: Option<seq<string>>): (r: string)
    ensures addresses.Some? && |addresses.value| > 0 ==> r == addresses.value[0]
    ensures addresses.None? || addresses.value == [] ==> r == ""
  {
    if addresses.Some? && |addresses.value| > 0 then addresses.value[0] else ""
  }

  /** Every character of `s` is white space. */
  predicate Blank(s: string) {
    forall i :: 0 <= i < |s| ==> IsJsSpace(s[i])
  }

  /** Two strings joined by a space are blank exactly when both are. */
  lemma BlankJoin(a: string, b: string)
    ensures Blank(a + " " + b) <==> Blank(a) && Blank(b)
  {
    var full := a + " " + b;
    if Blank(a) && Blank(b) {
      forall i | 0 <= i < |full| ensures IsJsSpace(full[i]) {
        if i < |a| {
          assert full[i] == a[i];
        } else if i > |a| {
          assert full[i] == b[i - |a| - 1];
        }
      }
    }
    if Blank(full) {
      forall i | 0 <= i < |a| ensures IsJsSpace(a[i]) {
        assert a[i] == full[i];
      }
      forall j | 0 <= j < |b| ensures IsJsSpace(b[j]) {
        assert b[j] == full[|a| + 1 + j];
      }
    }
  }

  /** `${first || ""} ${last || ""}`.trim() || "User". Never empty, never
      starting or ending in white space; "User" whenever both names are
      blank, and otherwise the trimmed join of the two names. */
  function DisplayName(first: Option<string>, last: Option<string>): (r: string)
    ensures r != [] && Trimmed(r)
    ensures Blank(OrEmpty(first)) && Blank(OrEmpty(last)) ==> r == "User"
    ensures !(Blank(OrEmpty(first)) && Blank(OrEmpty(last))) ==>
      r == Trim(OrEmpty(first) + " " + OrEmpty(last))
  {
    var full := OrEmpty(first) + " " + OrEmpty(last);
    TrimEmptyIffBlank(full);
    BlankJoin(OrEmpty(first), OrEmpty(last));
    var t := Trim(full);
    if t == "" then "User" else t
  }

  /** With already-trimmed name parts, the display name is the parts joined
      by one space, or the one non-empty part, or "User". */
  lemma DisplayNameOfTrimmedParts(first: string, last: string)
    requires Trimmed(first) && Trimmed(last)
    ensures first != "" && last != "" ==> DisplayName(Some(first), Some(last)) == first + " " + last
    ensures first != "" && last == "" ==> DisplayName(Some(first), Some(last)) == first
    ensures first == "" && last != "" ==> DisplayName(Some(first), Some(last)) == last
    ensures first == "" && last == "" ==> DisplayName(Some(first), Some(last)) == "User"
  {
    var full := first + " " + last;
    if first != "" && last != "" {
      assert full[0] == first[0] && full[|full| - 1] == last[|last| - 1];
      TrimOfTrimmed(full);
    } else if first != "" {
      assert full[0] == first[0];
      assert TrimStart(full) == full;
      assert full[..|full| - 1] == first;
      assert TrimEnd(full) == TrimEnd(first);
      TrimOfTrimmed(first);
    } else if last != "" {
      assert full[1..] == last;
      assert TrimStart(full) == TrimStart(last);
      TrimOfTrimmed(last);
    } else {
      assert full == " ";
      TrimEmptyIffBlank(full);
    }
  }

  /** The profile derivation shared by every path that creates or updates a User. */
  function Derive(p: ProviderProfile): (f: ProfileFields)
    ensures f.email == FirstEmail(p.emailAddresses)
    ensures f.name == DisplayName(p.firstName, p.lastName) && f.name != ""
    ensures f.imageUrl == OrEmpty(p.imageUrl)
  {
    ProfileFields(FirstEmail(p.emailAddresses), DisplayName(p.firstName, p.lastName), OrEmpty(p.imageUrl))
  }

  /** A new User for `id`: the derived profile fields and no enrollments. */
  function NewUser(id: string, p: ProviderProfile): (u: User)
    ensures u.id == id && u.enrolledCourses == []
    ensures ProfileFields(u.email, u.name, u.imageUrl) == Derive(p)
  {
    var f := Derive(p);
    User(id, f.email, f.name, f.imageUrl, [])
  }

  /** `u` with exactly its email, name and avatar replaced from `p`. */
  function ApplyProfile(u: User, p: ProviderProfile): (v: User)
    ensures v.id == u.id && v.enrolledCourses == u.enrolledCourses
    ensures ProfileFields(v.email, v.name, v.imageUrl) == Derive(p)
  {
    var f := Derive(p);
    u.(email := f.email, name := f.name, imageUrl := f.imageUrl)
  }
}
