/** A user account (the `users` table) and the constraints its data annotations place on it,
    including the e-mail pattern. */
module UserModel {
  import opened Common

  datatype User = User(
    userId: Uuid,
    userEmail: string,
    userRole: string,
    isRoleVerified: bool,
    userFirstName: string,
    userLastName: string,
    userPhoneNumber: string,
    userAddress: Option<string>,
    createUserDate: DateTime,
    userBirthDate: DateTime,
    userProfilePicture: Option<string>,
    userIsVerified: bool)

  /** The primary key. */
  function UserKey(u: User): Uuid {
    u.userId
  }

  const UserRoles: set<string> := {"standard", "foster_home", "shelter", "admin"}

  /** `UserRole`: required, at most 20 characters, one of the four roles. */
  predicate ValidUserRole(s: string) {
    Required(s) && |s| <= 20 && MatchesOneOfOpt(Some(s), UserRoles)
  }

  /** Taken together, the role attributes admit exactly the four roles. */
  lemma ValidUserRoleIff(s: string)
    ensures ValidUserRole(s) <==> s in UserRoles
  {
    if s in UserRoles {
      assert !IsWhiteSpace(s[0]);
    }
  }

  // The character classes of the e-mail pattern.

  predicate IsAsciiLetter(c: char) {
    'a' <= c <= 'z' || 'A' <= c <= 'Z'
  }

  predicate IsAsciiDigit(c: char) {
    '0' <= c <= '9'
  }

  /** `[a-zA-Z0-9._%+-]` */
  predicate IsLocalChar(c: char) {
    IsAsciiLetter(c) || IsAsciiDigit(c) || c == '.' || c == '_' || c == '%' || c == '+' || c == '-'
  }

  /** `[a-zA-Z0-9.-]` */
  predicate IsDomainChar(c: char) {
    IsAsciiLetter(c) || IsAsciiDigit(c) || c == '.' || c == '-'
  }

  predicate AllLocalChars(s: string) {
    forall i :: 0 <= i < |s| ==> IsLocalChar(s[i])
  }

  predicate AllDomainChars(s: string) {
    forall i :: 0 <= i < |s| ==> IsDomainChar(s[i])
  }

  predicate AllLetters(s: string) {
    forall i :: 0 <= i < |s| ==> IsAsciiLetter(s[i])
  }

  /** `s` read as `local@domain.tld` with the '@' at `at` and the last-part '.' at `dot`:
      a non-empty local part, a non-empty domain and a top-level domain of at least two letters. */
  predicate EmailSplit(s: string, at: int, dot: int) {
    && 0 < at && at + 1 < dot && dot + 2 < |s|
    && s[at] == '@' && s[dot] == '.'
    && AllLocalChars(s[..at]) && AllDomainChars(s[at + 1..dot]) && AllLetters(s[dot + 1..])
  }

  /** The pattern `^[a-zA-Z0-9._%+-]+@[a-zA-Z0-9.-]+\.[a-zA-Z]{2,}$`: some way of splitting
      `s` matches it. */
  ghost predicate MatchesEmailPattern(s: string) {
    exists at, dot :: EmailSplit(s, at, dot)
  }

  /** The position of the first `c` in `s`. */
  function FirstIndexOf(s: string, c: char): (r: Option<nat>)
    ensures r.None? <==> forall i :: 0 <= i < |s| ==> s[i] != c
    ensures r.Some? ==> r.value < |s| && s[r.value] == c && forall i :: 0 <= i < r.value ==> s[i] != c
  {
    if |s| == 0 then None
    else if s[0] == c then Some(0)
    else
      match FirstIndexOf(s[1..], c)
      case None => None
      case Some(j) => Some(j + 1)
  }

  /** The position of the last `c` in `s`. */
  function LastIndexOf(s: string, c: char): (r: Option<nat>)
    ensures r.None? <==> forall i :: 0 <= i < |s| ==> s[i] != c
    ensures r.Some? ==> r.value < |s| && s[r.value] == c && forall i :: r.value < i < |s| ==> s[i] != c
  {
    if |s| == 0 then None
    else if s[|s| - 1] == c then Some(|s| - 1)
    else LastIndexOf(s[..|s| - 1], c)
  }

  /** A direct test of the e-mail pattern: the only split that can match puts the '@' at the
      first '@' (the local part has none) and the dot at the last '.' (the top-level domain
      has none). */
  predicate IsEmailPatternMatch(s: string) {
    match (FirstIndexOf(s, '@'), LastIndexOf(s, '.'))
    case (Some(at), Some(dot)) => EmailSplit(s, at, dot)
    case _ => false
  }

  /** The direct test accepts exactly the strings the pattern matches. */
  lemma IsEmailPatternMatchCorrect(s: string)
    ensures IsEmailPatternMatch(s) <==> MatchesEmailPattern(s)
  {
    if MatchesEmailPattern(s) {
      var at, dot :| EmailSplit(s, at, dot);
      assert forall i :: 0 <= i < at ==> s[i] == s[..at][i];
      assert forall i :: 0 <= i < at ==> s[i] != '@' by {
        forall i | 0 <= i < at ensures s[i] != '@' {
          assert IsLocalChar(s[..at][i]);
        }
      }
      forall i | dot < i < |s| ensures s[i] != '.' {
        assert s[i] == s[dot + 1..][i - dot - 1];
        assert IsAsciiLetter(s[dot + 1..][i - dot - 1]);
      }
      assert FirstIndexOf(s, '@') == Some(at);
      assert LastIndexOf(s, '.') == Some(dot);
    }
  }

  /** `UserEmail`: required, at most 100 characters, matching the pattern (which lets the empty
      string through; `[Required]` does not). */
  predicate ValidUserEmail(s: string) {
    Required(s) && |s| <= 100 && (s == "" || IsEmailPatternMatch(s))
  }

  /** A valid e-mail address is exactly a pattern match of at most 100 characters. */
  lemma ValidUserEmailIff(s: string)
    ensures ValidUserEmail(s) <==> |s| <= 100 && MatchesEmailPattern(s)
  {
    IsEmailPatternMatchCorrect(s);
    if MatchesEmailPattern(s) {
      var at, dot :| EmailSplit(s, at, dot);
      assert IsLocalChar(s[..at][0]);
      assert !IsWhiteSpace(s[0]);
    }
  }

  /** Every data annotation of the `User` class holds. */
  predicate ValidUser(u: User) {
    && ValidUserEmail(u.userEmail)
    && ValidUserRole(u.userRole)
    && Required(u.userFirstName) && |u.userFirstName| <= 100
    && Required(u.userLastName) && |u.userLastName| <= 100
    && Required(u.userPhoneNumber) && |u.userPhoneNumber| <= 20
  }

  /** What a valid user's fields look like: an address `local@domain.tld` of at most 100
      characters with a top-level domain of at least two letters, one of the four roles, and
      names and phone number within their bounds. */
  lemma ValidUserFields(u: User)
    requires ValidUser(u)
    ensures exists at, dot :: EmailSplit(u.userEmail, at, dot)
    ensures |u.userEmail| <= 100
    ensures u.userRole in UserRoles
    ensures 0 < |u.userFirstName| <= 100 && 0 < |u.userLastName| <= 100
    ensures 0 < |u.userPhoneNumber| <= 20
  {
    ValidUserEmailIff(u.userEmail);
    ValidUserRoleIff(u.userRole);
  }

  /** The pattern accepts an ordinary address. */
  lemma EmailAccepted()
    ensures IsEmailPatternMatch("a.b@c-d.org")
  {
    var s := "a.b@c-d.org";
    assert EmailSplit(s, 3, 7) by {
      assert s[..3] == "a.b" && s[4..7] == "c-d" && s[8..] == "org";
    }
    IsEmailPatternMatchCorrect(s);
  }

  /** The pattern rejects a one-letter top-level domain. */
  lemma EmailShortTldRejected()
    ensures !IsEmailPatternMatch("a@b.c")
  {
    var s := "a@b.c";
    assert LastIndexOf(s, '.') == Some(3) by {
      assert s[4] != '.';
    }
  }

  /** The pattern rejects a second '@'. */
  lemma EmailTwoAtsRejected()
    ensures !IsEmailPatternMatch("a@b@c.org")
  {
    var s := "a@b@c.org";
    assert FirstIndexOf(s, '@') == Some(1) by {
      assert s[0] != '@';
    }
    assert !IsDomainChar(s[2..5][1]);
  }
}
