/** The permission slug language resource:action[:specificity]: the application's
    recogniser and printer, and the column the database generates. */
module PermissionSlug {
  import opened Outcomes
  import opened Text

  const VALID_ACTIONS: set<string> :=
    {"read", "write", "delete", "execute", "approve", "export", "administer"}

  predicate IsSegmentChar(c: char) {
    'a' <= c <= 'z' || '0' <= c <= '9' || c == '-'
  }

  /** The pattern shared by the application and the CHECK constraints. */
  predicate IsSegment(s: string) {
    s != "" && forall i :: 0 <= i < |s| ==> IsSegmentChar(s[i])
  }

  /** What the CHECK constraints on the permissions table admit. */
  predicate WellFormed(resource: string, action: string, specificity: Option<string>) {
    IsSegment(resource) && action in VALID_ACTIONS &&
    (specificity.Some? ==> IsSegment(specificity.value))
  }

  predicate IsValidPermissionSlug(slug: string) {
    var parts := Split(slug, ':');
    2 <= |parts| <= 3 &&
    parts[0] != "" &&
    parts[1] in VALID_ACTIONS &&
    (|parts| == 3 ==> parts[2] != "") &&
    forall i :: 0 <= i < |parts| ==> IsSegment(parts[i])
  }

  /** The printer: an absent and an empty specificity are both left out. */
  function BuildPermissionSlug(resource: string, action: string, specificity: Option<string>): string {
    if specificity.Some? && specificity.value != ""
    then resource + ":" + action + ":" + specificity.value
    else resource + ":" + action
  }

  /** The generated column: only NULL is left out. */
  function GeneratedSlug(resource: string, action: string, specificity: Option<string>): string {
    resource + ":" + action + match specificity case None => "" case Some(s) => ":" + s
  }

  /** The components a slug of two or three pieces spells out. */
  function ParseSlug(slug: string): Option<(string, string, Option<string>)> {
    var parts := Split(slug, ':');
    if |parts| == 2 then Some((parts[0], parts[1], None))
    else if |parts| == 3 then Some((parts[0], parts[1], Some(parts[2])))
    else None
  }

  lemma ActionsAreSegments(action: string)
    requires action in VALID_ACTIONS
    ensures IsSegment(action)
  {
  }

  lemma BuiltSlugSplits(resource: string, action: string, specificity: Option<string>)
    requires WellFormed(resource, action, specificity)
    ensures Split(BuildPermissionSlug(resource, action, specificity), ':') ==
            [resource, action] + if specificity.Some? then [specificity.value] else []
  {
    ActionsAreSegments(action);
    var parts := [resource, action] + if specificity.Some? then [specificity.value] else [];
    SplitUndoesJoin(parts, ':');
    if specificity.Some? {
      JoinOfThree(resource, action, specificity.value, ":");
      assert parts == [resource, action, specificity.value];
    } else {
      assert parts[1..] == [action];
    }
    assert Join(parts, ":") == BuildPermissionSlug(resource, action, specificity);
  }

  /** Parsing undoes printing, so printing is injective on well-formed components. */
  lemma ParseUndoesBuild(resource: string, action: string, specificity: Option<string>)
    requires WellFormed(resource, action, specificity)
    ensures ParseSlug(BuildPermissionSlug(resource, action, specificity)) ==
            Some((resource, action, specificity))
  {
    BuiltSlugSplits(resource, action, specificity);
  }

  lemma SlugDeterminesComponents(r1: string, a1: string, s1: Option<string>,
                                 r2: string, a2: string, s2: Option<string>)
    requires WellFormed(r1, a1, s1) && WellFormed(r2, a2, s2)
    requires GeneratedSlug(r1, a1, s1) == GeneratedSlug(r2, a2, s2)
    ensures r1 == r2 && a1 == a2 && s1 == s2
  {
    SlugsAgree(r1, a1, s1);
    SlugsAgree(r2, a2, s2);
    ParseUndoesBuild(r1, a1, s1);
    ParseUndoesBuild(r2, a2, s2);
  }

  /** Printing undoes parsing on every slug the recogniser accepts. */
  lemma BuildUndoesParse(slug: string)
    requires IsValidPermissionSlug(slug)
    ensures ParseSlug(slug).Some?
    ensures var (r, a, s) := ParseSlug(slug).value;
            WellFormed(r, a, s) && BuildPermissionSlug(r, a, s) == slug
  {
    var parts := Split(slug, ':');
    JoinUndoesSplit(slug, ':');
    if |parts| == 3 {
      JoinOfThree(parts[0], parts[1], parts[2], ":");
      assert parts == [parts[0], parts[1], parts[2]];
    } else {
      assert parts[1..] == [parts[1]];
    }
  }

  /** The recogniser accepts exactly the image of the printer. */
  lemma RecogniserIsPrinterImage(slug: string)
    ensures IsValidPermissionSlug(slug) <==>
            exists r, a, s :: WellFormed(r, a, s) && slug == BuildPermissionSlug(r, a, s)
  {
    if IsValidPermissionSlug(slug) {
      BuildUndoesParse(slug);
      var (r, a, s) := ParseSlug(slug).value;
      assert WellFormed(r, a, s);
    }
    forall r, a, s | WellFormed(r, a, s) && slug == BuildPermissionSlug(r, a, s)
      ensures IsValidPermissionSlug(slug)
    {
      BuiltSlugSplits(r, a, s);
      ActionsAreSegments(a);
    }
  }

  /** The two slug definitions differ on exactly one family of inputs, the empty
      specificity, which the CHECK constraint keeps out of the table. */
  lemma SlugsAgree(resource: string, action: string, specificity: Option<string>)
    ensures BuildPermissionSlug(resource, action, specificity) ==
            GeneratedSlug(resource, action, specificity)
            <==> specificity != Some("")
    ensures WellFormed(resource, action, specificity) ==> specificity != Some("")
  {
  }

  // ---------------------------------------------------------------------------
  // The language, character by character
  // ---------------------------------------------------------------------------

  /** A non-empty word over the letters, the digits and the hyphen. */
  predicate IsWord(s: string) {
    s != "" && forall i :: 0 <= i < |s| ==> s[i] in "abcdefghijklmnopqrstuvwxyz0123456789-"
  }

  lemma LetterAt(i: nat)
    requires i < 26
    ensures "abcdefghijklmnopqrstuvwxyz0123456789-"[i] == ('a' as int + i) as char
  {
  }

  lemma DigitAt(i: nat)
    requires i < 10
    ensures "abcdefghijklmnopqrstuvwxyz0123456789-"[26 + i] == ('0' as int + i) as char
  {
  }

  lemma ListedCharAt(i: nat)
    requires i < 37
    ensures IsSegmentChar("abcdefghijklmnopqrstuvwxyz0123456789-"[i])
  {
    if i < 26 {
      LetterAt(i);
    } else if i < 36 {
      DigitAt(i - 26);
    }
  }

  lemma ListedCharsAre(c: char)
    requires c in "abcdefghijklmnopqrstuvwxyz0123456789-"
    ensures IsSegmentChar(c)
  {
    hide IsSegmentChar;
    var i :| 0 <= i < 37 && "abcdefghijklmnopqrstuvwxyz0123456789-"[i] == c;
    ListedCharAt(i);
  }

  lemma SegmentCharsAreListed(c: char)
    requires IsSegmentChar(c)
    ensures c in "abcdefghijklmnopqrstuvwxyz0123456789-"
  {
    if 'a' <= c <= 'z' {
      LetterAt(c as int - 'a' as int);
    } else if '0' <= c <= '9' {
      DigitAt(c as int - '0' as int);
    } else {
      assert "abcdefghijklmnopqrstuvwxyz0123456789-"[36] == c;
    }
  }

  lemma SegmentsAreWords(s: string)
    ensures IsSegment(s) <==> IsWord(s)
  {
    forall i | 0 <= i < |s| ensures IsSegmentChar(s[i]) <==> s[i] in "abcdefghijklmnopqrstuvwxyz0123456789-" {
      if IsSegmentChar(s[i]) {
        SegmentCharsAreListed(s[i]);
      } else if s[i] in "abcdefghijklmnopqrstuvwxyz0123456789-" {
        ListedCharsAre(s[i]);
      }
    }
  }

  /** The components the checks admit. */
  lemma CheckedComponentsAre(resource: string, action: string, specificity: Option<string>)
    ensures WellFormed(resource, action, specificity) <==>
            IsWord(resource) &&
            action in ["read", "write", "delete", "execute", "approve", "export", "administer"] &&
            (specificity == None || IsWord(specificity.value))
  {
    SegmentsAreWords(resource);
    if specificity.Some? {
      SegmentsAreWords(specificity.value);
    }
  }

  /** A slug is accepted exactly when it is a word, a colon and one of the seven
      actions, with a second colon and word or without. */
  lemma AcceptedSlugsAre(slug: string)
    ensures IsValidPermissionSlug(slug) <==>
            exists r, a ::
              IsWord(r) && a in ["read", "write", "delete", "execute", "approve", "export", "administer"] &&
              (slug == r + ":" + a || exists s :: IsWord(s) && slug == r + ":" + a + ":" + s)
  {
    RecogniserIsPrinterImage(slug);
    if IsValidPermissionSlug(slug) {
      var r, a, s :| WellFormed(r, a, s) && slug == BuildPermissionSlug(r, a, s);
      CheckedComponentsAre(r, a, s);
      assert IsWord(r);
    }
    forall r, a | IsWord(r) && a in ["read", "write", "delete", "execute", "approve", "export", "administer"]
      ensures slug == r + ":" + a ==> IsValidPermissionSlug(slug)
      ensures (exists s :: IsWord(s) && slug == r + ":" + a + ":" + s) ==> IsValidPermissionSlug(slug)
    {
      hide IsValidPermissionSlug;
      CheckedComponentsAre(r, a, None);
      assert BuildPermissionSlug(r, a, None) == r + ":" + a;
      if s :| IsWord(s) && slug == r + ":" + a + ":" + s {
        CheckedComponentsAre(r, a, Some(s));
        assert BuildPermissionSlug(r, a, Some(s)) == slug;
      }
    }
  }
}
