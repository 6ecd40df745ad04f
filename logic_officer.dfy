/**
 * logic_officer.py: a security reviewer's free-text verdict decides whether
 * a query goes on to the main crew. The review itself is a call into an
 * agent framework and becomes the parameter `securityResult`.
 */
module LogicOfficer {
  import opened Text

  /** What the orchestration step does with the review. */
  datatype Decision =
    | Approved                      // "LSO Approved. Proceeding with mission."
    | Vetoed(justification: string) // the veto banner, then the review as justification

  /** The review mentions `VETO` in upper case once the whole text is upper-cased. */
  predicate MentionsVeto(securityResult: string) {
    Contains(Upper(securityResult), "VETO")
  }

  /** `if "VETO" in security_result.upper(): ... else: ...` */
  function Orchestrate(securityResult: string): Decision {
    if MentionsVeto(securityResult) then Vetoed(securityResult) else Approved
  }

  /** c is the upper-case ASCII letter `letter` or its lower-case form. */
  predicate IsLetter(c: char, letter: char)
    requires 'A' <= letter <= 'Z'
  {
    c == letter || c == (letter as int + 32) as char
  }

  /** The four characters from position i spell "veto" in some mix of cases. */
  predicate VetoSpelledAt(s: string, i: int) {
    0 <= i && i + 4 <= |s|
    && IsLetter(s[i], 'V') && IsLetter(s[i + 1], 'E') && IsLetter(s[i + 2], 'T') && IsLetter(s[i + 3], 'O')
  }

  /** Upper-casing gives an upper-case ASCII letter exactly from that letter in either case. */
  lemma UpperCharIsLetter(c: char, letter: char)
    requires 'A' <= letter <= 'Z'
    ensures UpperChar(c) == letter <==> IsLetter(c, letter)
  {
  }

  /** At one position, the upper-cased text reads `VETO` exactly when the text spells "veto" there. */
  lemma VetoAtPosition(s: string, i: int)
    requires 0 <= i && i + 4 <= |s|
    ensures OccursAt(Upper(s), "VETO", i) <==> VetoSpelledAt(s, i)
  {
    var u := Upper(s);
    FourChars(u[i..i + 4], 'V', 'E', 'T', 'O');
    assert u[i..i + 4][1] == u[i + 1] && u[i..i + 4][3] == u[i + 3];
    UpperCharIsLetter(s[i], 'V');
    UpperCharIsLetter(s[i + 1], 'E');
    UpperCharIsLetter(s[i + 2], 'T');
    UpperCharIsLetter(s[i + 3], 'O');
  }

  /** A four-character string equals a four-element display exactly when they agree pointwise. */
  lemma FourChars(w: string, a: char, b: char, c: char, d: char)
    requires |w| == 4
    ensures w == [a, b, c, d] <==> w[0] == a && w[1] == b && w[2] == c && w[3] == d
  {
    if w[0] == a && w[1] == b && w[2] == c && w[3] == d {
      assert w == [a, b, c, d];
    }
  }

  /**
   * The request is vetoed exactly when "veto", in any mix of cases, occurs
   * anywhere in the review, and the justification is the review itself,
   * unchanged; otherwise it is approved.
   */
  lemma VetoIffSpelledAnywhere(securityResult: string)
    ensures Orchestrate(securityResult).Vetoed? <==>
      exists i :: 0 <= i <= |securityResult| - 4 && VetoSpelledAt(securityResult, i)
    ensures Orchestrate(securityResult).Vetoed? ==> Orchestrate(securityResult).justification == securityResult
    ensures Orchestrate(securityResult).Approved? <==> !MentionsVeto(securityResult)
  {
    var s := securityResult;
    if MentionsVeto(s) {
      var i :| 0 <= i <= |Upper(s)| - 4 && OccursAt(Upper(s), "VETO", i);
      VetoAtPosition(s, i);
    }
    if exists i :: 0 <= i <= |s| - 4 && VetoSpelledAt(s, i) {
      var i :| 0 <= i <= |s| - 4 && VetoSpelledAt(s, i);
      VetoAtPosition(s, i);
      assert OccursAt(Upper(s), "VETO", i);
    }
  }

  /** Upper-casing the review first changes nothing about the decision. */
  lemma DecisionIgnoresCase(securityResult: string)
    ensures Orchestrate(Upper(securityResult)).Vetoed? == Orchestrate(securityResult).Vetoed?
  {
    UpperIdempotent(securityResult);
  }

  /** Text added around a vetoing review never turns it into an approval. */
  lemma VetoSurvivesContext(pre: string, securityResult: string, post: string)
    requires Orchestrate(securityResult).Vetoed?
    ensures Orchestrate(pre + securityResult + post).Vetoed?
  {
    VetoIffSpelledAnywhere(securityResult);
    var i :| 0 <= i <= |securityResult| - 4 && VetoSpelledAt(securityResult, i);
    var m := securityResult + post;
    SpelledBeforeText(securityResult, post, i);
    SpelledAfterText(pre, m, i);
    assert pre + securityResult + post == pre + m;
    VetoIffSpelledAnywhere(pre + m);
  }

  lemma SpelledBeforeText(s: string, post: string, i: int)
    requires VetoSpelledAt(s, i)
    ensures VetoSpelledAt(s + post, i)
  {
    var t := s + post;
    assert t[i] == s[i] && t[i + 1] == s[i + 1] && t[i + 2] == s[i + 2] && t[i + 3] == s[i + 3];
  }

  lemma SpelledAfterText(pre: string, s: string, i: int)
    requires VetoSpelledAt(s, i)
    ensures VetoSpelledAt(pre + s, |pre| + i)
  {
    var t := pre + s;
    var j := |pre| + i;
    assert t[j] == s[i] && t[j + 1] == s[i + 1] && t[j + 2] == s[i + 2] && t[j + 3] == s[i + 3];
  }

  /** The reviewer's two prescribed answers: a bare `APPROVED` approves, a `VETO` line vetoes. */
  lemma PrescribedAnswers(justification: string)
    ensures Orchestrate("APPROVED") == Approved
    ensures Orchestrate("VETO: " + justification) == Vetoed("VETO: " + justification)
  {
    ApprovedHasNoVeto();
    var t := "VETO: " + justification;
    assert t[0] == 'V' && t[1] == 'E' && t[2] == 'T' && t[3] == 'O';
    assert VetoSpelledAt(t, 0);
    VetoIffSpelledAnywhere(t);
  }

  lemma ApprovedHasNoVeto()
    ensures !MentionsVeto("APPROVED")
  {
    var s := "APPROVED";
    assert s[0] == 'A' && s[1] == 'P' && s[2] == 'P' && s[3] == 'R' && s[4] == 'O';
    NoVBeforeLastThree(s);
  }

  /** A review with no `v` or `V` before its last three characters never vetoes. */
  lemma NoVBeforeLastThree(s: string)
    requires forall i :: 0 <= i <= |s| - 4 ==> s[i] != 'V' && s[i] != 'v'
    ensures !MentionsVeto(s)
  {
    VetoIffSpelledAnywhere(s);
  }

  /**
   * Containment, not the first word, decides: an approval whose reasons
   * mention the word "veto" is treated as a veto.
   */
  lemma ApprovalMentioningVetoIsVetoed()
    ensures Orchestrate("APPROVED. Nothing here to veto.").Vetoed?
  {
    var s := "APPROVED. Nothing here to veto.";
    assert s[26] == 'v' && s[27] == 'e' && s[28] == 't' && s[29] == 'o';
    assert VetoSpelledAt(s, 26);
    VetoIffSpelledAnywhere(s);
  }
}
