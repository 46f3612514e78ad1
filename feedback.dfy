/**
 * What the screens show after an action (toasts) and how they read an error message:
 * the admin screens tell an access failure from any other failure by its text alone.
 */
module Feedback {
  import Text
  import Backend

  datatype Toast = Success(text: string) | Error(text: string)

  /** `error?.message || fallback`: an empty message is replaced by the fallback. */
  function MessageOr(message: string, fallback: string): (r: string)
    ensures message != "" ==> r == message
    ensures message == "" ==> r == fallback
  {
    if message != "" then message else fallback
  }

  /** The access test of the admin screens: the message mentions `Unauthorized` or `admin`. */
  predicate MentionsAccess(message: string)
  {
    Text.Includes(message, "Unauthorized") || Text.Includes(message, "admin")
  }

  /** A pattern holding a character the text lacks cannot occur in the text. */
  lemma MissingCharExcludes(s: string, p: string, c: char)
    requires c in p && c !in s
    ensures !Text.Includes(s, p)
  {
    var j :| 0 <= j < |p| && p[j] == c;
    forall i ensures !Text.OccursAt(s, p, i) {
      if 0 <= i && i + |p| <= |s| {
        assert s[i..i + |p|][j] == s[i + j] != c;
      }
    }
    Text.IncludesIffOccurs(s, p);
  }

  /** A fallback that mentions neither word does not change the verdict of the access test. */
  lemma FallbackKeepsVerdict(message: string, fallback: string)
    requires 'U' !in fallback && 'm' !in fallback
    ensures MentionsAccess(MessageOr(message, fallback)) <==> MentionsAccess(message)
  {
    MissingCharExcludes(fallback, "Unauthorized", 'U');
    MissingCharExcludes(fallback, "admin", 'm');
    if message == "" {
      assert !Text.Includes("", "Unauthorized") && !Text.Includes("", "admin");
    }
  }

  /** A message lacking both a `U` and an `m` is never read as an access failure. */
  lemma NoAccessWithoutLetters(message: string)
    requires 'U' !in message && 'm' !in message
    ensures !MentionsAccess(message)
  {
    MissingCharExcludes(message, "Unauthorized", 'U');
    MissingCharExcludes(message, "admin", 'm');
  }

  /** The error thrown for a missing actor is not read as an access failure. */
  lemma MissingActorIsNoAccessFailure()
    ensures !MentionsAccess(Backend.ActorNotAvailable)
  {
    NoAccessWithoutLetters(Backend.ActorNotAvailable);
  }
}
