/** The account header of the planner's app-settings modal: the name shown,
    the avatar's initials and the sign-out button's guard. */
module AppSettings {
  import opened Common

  /** The `display_name`, `full_name` and `name` entries of the session's
      user metadata; all are absent without a session. */
  datatype UserMetadata = UserMetadata(displayName: Option<string>, fullName: Option<string>, name: Option<string>)

  /** `display_name ?? full_name ?? name ?? ""`: the first entry that is
      present, even when it is empty. */
  function DisplayName(meta: UserMetadata): (r: string)
    ensures meta.displayName.Some? ==> r == meta.displayName.value
    ensures meta.displayName.None? && meta.fullName.Some? ==> r == meta.fullName.value
    ensures meta.displayName.None? && meta.fullName.None? && meta.name.Some? ==> r == meta.name.value
    ensures meta.displayName.None? && meta.fullName.None? && meta.name.None? ==> r == ""
  {
    Coalesce(meta.displayName, Coalesce(meta.fullName, Coalesce(meta.name, Some("")))).value
  }

  /** `displayName || userEmail || "You"`: the first non-empty one. */
  function HeaderLabel(displayName: string, userEmail: string): (r: string)
    ensures r != ""
    ensures displayName != "" ==> r == displayName
    ensures displayName == "" && userEmail != "" ==> r == userEmail
    ensures displayName == "" && userEmail == "" ==> r == "You"
  {
    if displayName != "" then displayName
    else if userEmail != "" then userEmail
    else "You"
  }

  // ---------------------------------------------------------------------
  // Initials: split the header label at spaces, keep each piece's first
  // character upper-cased, join them and keep the first two.

  /** `s.split(" ")`: the pieces between single spaces, empty pieces
      included. */
  function Split(s: string): (parts: seq<string>)
    ensures |parts| >= 1
    ensures forall k :: 0 <= k < |parts| ==> ' ' !in parts[k]
  {
    if s == [] then [""]
    else if s[0] == ' ' then [""] + Split(s[1..])
    else
      var rest := Split(s[1..]);
      [[s[0]] + rest[0]] + rest[1..]
  }

  /** `parts.join(" ")` */
  function Join(parts: seq<string>): string
    requires |parts| >= 1
  {
    if |parts| == 1 then parts[0] else parts[0] + " " + Join(parts[1..])
  }

  /** Splitting at spaces and joining with spaces gives the label back. */
  lemma {:induction false} JoinSplit(s: string)
    ensures Join(Split(s)) == s
  {
    if s != [] {
      JoinSplit(s[1..]);
      var rest := Split(s[1..]);
      if s[0] == ' ' {
        assert ([""] + rest)[1..] == rest;
      } else {
        assert ([[s[0]] + rest[0]] + rest[1..])[1..] == rest[1..];
        if |rest| > 1 {
          assert rest[1..][1..] == rest[2..];
        }
      }
    }
  }

  /** The upper-cased first character of each piece, in order (empty
      pieces add nothing). */
  function FirstLetters(parts: seq<string>): (r: string)
    ensures |r| <= |parts|
  {
    if parts == [] then ""
    else (if parts[0] == "" then "" else [UpperChar(parts[0][0])]) + FirstLetters(parts[1..])
  }

  /** An independent reading of the same thing: the upper-cased characters
      that start a word, a word starting at a non-space character that is
      first or follows a space. */
  function WordInitials(s: string, afterSpace: bool): string
  {
    if s == [] then ""
    else (if s[0] != ' ' && afterSpace then [UpperChar(s[0])] else "") + WordInitials(s[1..], s[0] == ' ')
  }

  lemma {:induction false} FirstLettersAreWordInitials(s: string)
    ensures FirstLetters(Split(s)) == WordInitials(s, true)
    ensures FirstLetters(Split(s)[1..]) == WordInitials(s, false)
  {
    if s != [] {
      FirstLettersAreWordInitials(s[1..]);
      var rest := Split(s[1..]);
      if s[0] == ' ' {
        assert ([""] + rest)[1..] == rest;
      } else {
        var parts := [[s[0]] + rest[0]] + rest[1..];
        assert parts[1..] == rest[1..];
      }
    }
  }

  /** Only a label made of spaces has no word initial. */
  lemma {:induction false} NoWordInitialIffSpaces(s: string)
    ensures WordInitials(s, true) == "" <==> forall i :: 0 <= i < |s| ==> s[i] == ' '
  {
    if s != [] && s[0] == ' ' {
      NoWordInitialIffSpaces(s[1..]);
      assert forall i :: 1 <= i < |s| ==> s[i] == s[1..][i - 1];
    }
  }

  /** `initials` */
  function Initials(headerText: string): string
  {
    var letters := FirstLetters(Split(headerText));
    if |letters| <= 2 then letters else letters[..2]
  }

  /** The initials are at most two characters: the upper-cased starts of the
      first two words, and empty exactly when the label is all spaces. */
  lemma InitialsSpec(headerText: string)
    ensures var r := Initials(headerText);
            && |r| <= 2
            && r == (if |WordInitials(headerText, true)| <= 2 then WordInitials(headerText, true) else WordInitials(headerText, true)[..2])
            && (r == "" <==> forall i :: 0 <= i < |headerText| ==> headerText[i] == ' ')
  {
    FirstLettersAreWordInitials(headerText);
    NoWordInitialIffSpaces(headerText);
  }

  /** `initials || "U"`: the avatar always shows one or two characters. */
  function AvatarText(headerText: string): (r: string)
    ensures 1 <= |r| <= 2
    ensures r == "U" <==> Initials(headerText) == "" || Initials(headerText) == "U"
    ensures Initials(headerText) != "" ==> r == Initials(headerText)
    ensures (forall i :: 0 <= i < |headerText| ==> headerText[i] == ' ') ==> r == "U"
  {
    InitialsSpec(headerText);
    var initials := Initials(headerText);
    if initials != "" then initials else "U"
  }

  /** An example: "ada lovelace byron" shows "AL". */
  lemma InitialsExample()
    ensures Initials("ada lovelace byron") == "AL"
  {
    FirstLettersAreWordInitials("ada lovelace byron");
  }

  // ---------------------------------------------------------------------
  // handleSignOut

  /** What `signOut` may throw: an `Error` with a message, or any other
      value. */
  datatype Failure = ErrorWithMessage(message: string) | OtherThrown

  /** The alert's message for a failure. */
  function AlertMessage(f: Failure): (r: string)
    ensures f.ErrorWithMessage? ==> r == f.message
    ensures f.OtherThrown? ==> r == "Please try again."
  {
    match f
    case ErrorWithMessage(m) => m
    case OtherThrown => "Please try again."
  }

  class SignOutButton {
    var signingOut: bool
    /** Whether a `signOut` call is awaited. */
    var pending: bool
    /** Number of `signOut` calls made. */
    var signOutCalls: nat
    /** Messages of the "Unable to sign out" alerts shown. */
    var alerts: seq<string>

    ghost predicate Valid()
      reads this
    {
      pending <==> signingOut
    }

    constructor()
      ensures Valid() && !signingOut && signOutCalls == 0 && alerts == []
    {
      signingOut, pending, signOutCalls, alerts := false, false, 0, [];
    }

    /** A press: ignored while signing out, else starts one `signOut`. */
    method Press()
      requires Valid()
      modifies this`signingOut, this`pending, this`signOutCalls
      ensures Valid()
      ensures old(signingOut) ==> signingOut && signOutCalls == old(signOutCalls)
      ensures !old(signingOut) ==> signingOut && signOutCalls == old(signOutCalls) + 1
    {
      if signingOut {
        return;
      }
      signingOut := true;
      signOutCalls := signOutCalls + 1;
      pending := true;
    }

    /** The awaited `signOut` settles, with or without a failure; the flag
        is cleared either way. */
    method Settle(failure: Option<Failure>)
      requires Valid() && pending
      modifies this`signingOut, this`pending, this`alerts
      ensures Valid() && !signingOut
      ensures failure.None? ==> alerts == old(alerts)
      ensures failure.Some? ==> alerts == old(alerts) + [AlertMessage(failure.value)]
    {
      if failure.Some? {
        alerts := alerts + [AlertMessage(failure.value)];
      }
      signingOut := false;
      pending := false;
    }
  }
}
