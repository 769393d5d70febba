/**
 * The submit logic of src/components/Comments/CommentForm.tsx: the comment
 * and rating state, the guarded submit that trims, emits and resets, and the
 * memoised `submitDisabled` flag of the submit button.
 */
module Comments {
  import opened Options

  // ------------------------------------------------------------- trimming

  /**
   * The characters `String.prototype.trim` removes: the ECMAScript
   * WhiteSpace (tab, vertical tab, form feed, space, no-break space, byte
   * order mark and the other space separators) and LineTerminator
   * (line feed, carriage return, line and paragraph separators) sets.
   */
  predicate IsWhitespace(c: char)
  {
    c == '\t' || c == '\n' || c == '\U{000B}' || c == '\U{000C}' || c == '\r' || c == ' ' ||
    c == '\U{00A0}' || c == '\U{1680}' || ('\U{2000}' <= c <= '\U{200A}') ||
    c == '\U{2028}' || c == '\U{2029}' || c == '\U{202F}' || c == '\U{205F}' ||
    c == '\U{3000}' || c == '\U{FEFF}'
  }

  /** Every character of `s` is whitespace (true of the empty string). */
  predicate AllWhitespace(s: string)
  {
    forall i :: 0 <= i < |s| ==> IsWhitespace(s[i])
  }

  /** Leading whitespace removed: a suffix of `s` that does not start with whitespace. */
  function TrimStart(s: string): (r: string)
    ensures |r| <= |s|
    ensures forall i, j :: 0 <= i < |r| && j == |s| - |r| + i ==> r[i] == s[j]
    ensures forall i :: 0 <= i < |s| - |r| ==> IsWhitespace(s[i])
    ensures |r| > 0 ==> !IsWhitespace(r[0])
  {
    if |s| > 0 && IsWhitespace(s[0]) then TrimStart(s[1..]) else s
  }

  /** Trailing whitespace removed: a prefix of `s` that does not end with whitespace. */
  function TrimEnd(s: string): (r: string)
    ensures |r| <= |s|
    ensures forall i :: 0 <= i < |r| ==> r[i] == s[i]
    ensures forall i :: |r| <= i < |s| ==> IsWhitespace(s[i])
    ensures |r| > 0 ==> !IsWhitespace(r[|r| - 1])
  {
    if |s| > 0 && IsWhitespace(s[|s| - 1]) then TrimEnd(s[..|s| - 1]) else s
  }

  /**
   * `comment.trim()`: the part of `s` that starts `lead` characters in and
   * is followed by only whitespace, where the `lead` characters cut off at
   * the front are whitespace too; the result neither starts nor ends with
   * whitespace.
   */
  function Trim(s: string): (r: string)
    ensures var lead := |s| - |TrimStart(s)|;
      lead + |r| <= |s| &&
      (forall i, j :: 0 <= i < |r| && j == lead + i ==> r[i] == s[j]) &&
      (forall i :: 0 <= i < lead ==> IsWhitespace(s[i])) &&
      (forall i :: lead + |r| <= i < |s| ==> IsWhitespace(s[i]))
    ensures |r| > 0 ==> !IsWhitespace(r[0]) && !IsWhitespace(r[|r| - 1])
  {
    var t := TrimStart(s);
    var r := TrimEnd(t);
    TrimEndOfSuffix(s, t, r);
    r
  }

  /**
   * How the two cuts of `Trim` compose, position by position: a prefix `r`
   * of a suffix `t` of `s`, followed in `t` by whitespace only.
   */
  lemma TrimEndOfSuffix(s: string, t: string, r: string)
    requires |t| <= |s| && forall i, j :: 0 <= i < |t| && j == |s| - |t| + i ==> t[i] == s[j]
    requires |r| <= |t| && forall i :: 0 <= i < |r| ==> r[i] == t[i]
    requires forall i :: |r| <= i < |t| ==> IsWhitespace(t[i])
    ensures var lead := |s| - |t|;
      (forall i, j :: 0 <= i < |r| && j == lead + i ==> r[i] == s[j]) &&
      (forall i :: lead + |r| <= i < |s| ==> IsWhitespace(s[i]))
  {
    var lead := |s| - |t|;
    forall i, j | 0 <= i < |r| && j == lead + i
      ensures r[i] == s[j]
    {
      assert r[i] == t[i];
    }
    forall i | lead + |r| <= i < |s|
      ensures IsWhitespace(s[i])
    {
      assert t[i - lead] == s[i];
    }
  }

  /** A trimmed string is empty exactly when the original is whitespace only. */
  lemma TrimIsEmptyIffBlank(s: string)
    ensures Trim(s) == "" <==> AllWhitespace(s)
  {
    var r := Trim(s);
    var lead := |s| - |TrimStart(s)|;
    if r == "" {
      // a non-empty TrimStart result starts with a non-whitespace character
      // that TrimEnd would keep, so nothing survives the leading cut
      assert lead == |s|;
      forall i | 0 <= i < |s|
        ensures IsWhitespace(s[i])
      {
        assert s[i] == s[..lead][i];
      }
    } else {
      assert s[lead] == r[0];
    }
  }

  /** A string with no whitespace at either end is its own trim. */
  lemma TrimKeepsCleanString(s: string)
    requires |s| > 0 ==> !IsWhitespace(s[0]) && !IsWhitespace(s[|s| - 1])
    ensures TrimStart(s) == s && Trim(s) == s
  {
    assert TrimStart(s) == s;
    assert TrimEnd(s) == s;
  }

  /** Trimming twice is trimming once. */
  lemma TrimIsIdempotent(s: string)
    ensures Trim(Trim(s)) == Trim(s)
  {
    TrimKeepsCleanString(Trim(s));
  }

  // ------------------------------------------------------------ the guard

  /** What `onSubmit` receives. */
  datatype Submission = Submission(comment: string, rating: real)

  /** The guard of `handleSubmit`: a comment that is not blank and a positive rating. */
  predicate SubmitGuard(comment: string, rating: real)
  {
    Trim(comment) != "" && rating > 0.0
  }

  /** `submitDisabled`: a blank comment or a rating of exactly zero. */
  predicate ButtonDisabled(comment: string, rating: real)
  {
    Trim(comment) == "" || rating == 0.0
  }

  /**
   * For the ratings the star control produces (zero or more), the button is
   * disabled exactly when a submit would do nothing, and enabled exactly when
   * the comment has a non-whitespace character and the rating is positive.
   */
  lemma ButtonDisabledIffGuardFails(comment: string, rating: real)
    requires rating >= 0.0
    ensures ButtonDisabled(comment, rating) <==> !SubmitGuard(comment, rating)
    ensures !ButtonDisabled(comment, rating) <==> !AllWhitespace(comment) && rating > 0.0
  {
    TrimIsEmptyIffBlank(comment);
  }

  /**
   * The two checks differ on negative ratings: with a non-blank comment the
   * button is enabled, yet the submit it triggers emits nothing.
   */
  lemma NegativeRatingEnablesButtonThatDoesNothing(comment: string, rating: real)
    requires !AllWhitespace(comment) && rating < 0.0
    ensures !ButtonDisabled(comment, rating) && !SubmitGuard(comment, rating)
  {
    TrimIsEmptyIffBlank(comment);
  }

  /**
   * What a successful submit sends: a comment that is not empty, starts and
   * ends with a non-whitespace character and is already trimmed, and a
   * positive rating.
   */
  lemma SubmittedCommentIsClean(comment: string, rating: real)
    requires SubmitGuard(comment, rating)
    ensures var c := Trim(comment);
      c != "" && !IsWhitespace(c[0]) && !IsWhitespace(c[|c| - 1]) && Trim(c) == c && rating > 0.0
  {
    TrimIsIdempotent(comment);
  }

  // ------------------------------------------------------------ component

  class CommentForm {
    var comment: string
    var rating: real

    /** The initial state: no comment and no rating, so the button is disabled. */
    constructor ()
      ensures comment == "" && rating == 0.0
      ensures SubmitDisabled()
    {
      comment := "";
      rating := 0.0;
    }

    /** `submitDisabled`. */
    predicate SubmitDisabled()
      reads this
    {
      ButtonDisabled(comment, rating)
    }

    /** The text area's `onChange`. */
    method SetComment(value: string)
      modifies this
      ensures comment == value && rating == old(rating)
    {
      comment := value;
    }

    /** The star control's `onChange`. */
    method SetRating(value: real)
      modifies this
      ensures rating == value && comment == old(comment)
    {
      rating := value;
    }

    /**
     * `handleSubmit`: when the guard holds, emit the trimmed comment and the
     * rating once and reset both fields; otherwise emit nothing and keep the
     * state. `emitted` is the argument of the single `onSubmit` call.
     */
    method HandleSubmit() returns (emitted: Option<Submission>)
      modifies this
      ensures old(SubmitGuard(comment, rating)) ==>
        emitted == Some(Submission(Trim(old(comment)), old(rating))) && comment == "" && rating == 0.0
      ensures !old(SubmitGuard(comment, rating)) ==>
        emitted == None && comment == old(comment) && rating == old(rating)
      ensures emitted.Some? ==>
        (emitted.value.comment != "" && emitted.value.rating > 0.0 &&
         !IsWhitespace(emitted.value.comment[0]) &&
         !IsWhitespace(emitted.value.comment[|emitted.value.comment| - 1]))
      ensures emitted.Some? ==> SubmitDisabled()
    {
      var trimmed := Trim(comment);
      if trimmed != "" && rating > 0.0 {
        emitted := Some(Submission(trimmed, rating));
        comment := "";
        rating := 0.0;
      } else {
        emitted := None;
      }
    }
  }

  /**
   * Typing a comment with no whitespace at either end and choosing a positive
   * rating enables the button; the submit sends exactly that comment and
   * rating and disables the button again.
   */
  method SubmitCleanComment(text: string, stars: real) returns (emitted: Option<Submission>)
    requires |text| > 0 && !IsWhitespace(text[0]) && !IsWhitespace(text[|text| - 1])
    requires stars > 0.0
    ensures emitted == Some(Submission(text, stars))
  {
    TrimKeepsCleanString(text);
    var form := new CommentForm();
    assert form.SubmitDisabled();
    form.SetComment(text);
    form.SetRating(stars);
    assert !form.SubmitDisabled();
    emitted := form.HandleSubmit();
    assert form.SubmitDisabled();
  }

  /** "Great product!" with four stars is sent unchanged. */
  method SubmitScenario()
  {
    var emitted := SubmitCleanComment("Great product!", 4.0);
    assert emitted == Some(Submission("Great product!", 4.0));
  }

  /** A comment of blanks is refused and left in place. */
  method BlankCommentScenario()
  {
    var form := new CommentForm();
    form.SetComment(" \t\n");
    form.SetRating(3.0);
    TrimIsEmptyIffBlank(" \t\n");
    var emitted := form.HandleSubmit();
    assert emitted == None && form.comment == " \t\n" && form.rating == 3.0;
  }
}
