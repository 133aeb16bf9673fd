/**
 * How the profile page's client-side rules relate to the rules the server
 * applies to the same submitted values: every email the page accepts the
 * server accepts too, but the two username rules disagree on usernames made
 * only of '_' and '-'.
 */
module ClientServer {
  import opened Text
  import ProfilePage
  import Accounts

  /**
   * An email the profile page accepts passes the server's email check, even
   * though the page tests the trimmed value and the server the submitted one.
   */
  lemma ClientEmailPassesServer(raw: string)
    requires ProfilePage.ValidateValue("email", raw).isValid
    ensures Accounts.EmailOk(raw)
  {
    ProfilePage.ValidateValueRules("email", raw);
    var t := Trim(raw);
    var lead, trail := TrimSurround(raw);
    var i, k :| 0 < i < |t| && i + 1 < k < |t| && ProfilePage.EmailSplitAt(t, i, k);
    var j := |lead| + i;
    assert raw == lead + t + trail;
    assert raw[j] == t[i] == '@';
    assert raw[j + 1..] == t[i + 1..] + trail;
    var domain := t[i + 1..];
    assert '@' !in domain by {
      forall m | 0 <= m < |domain| ensures domain[m] != '@' {
        assert ProfilePage.EmailChar(domain[m]);
      }
    }
    assert '@' !in trail by {
      forall m | 0 <= m < |trail| ensures trail[m] != '@' {
        assert IsSpace(trail[m]);
      }
    }
    assert raw[j + 1..][k - i - 1] == t[k] == '.';
    Accounts.EmailOkAfterLastAt(raw, j);
  }

  /**
   * A username with no surrounding whitespace that the page accepts and that
   * holds a letter or digit passes the server's length and charset checks.
   */
  lemma ClientUsernamePassesServer(username: string)
    requires ProfilePage.ValidateValue("username", username).isValid
    requires Trim(username) == username
    requires exists i :: 0 <= i < |username| && IsAsciiAlnum(username[i])
    ensures |username| >= 3 && Accounts.UsernameCharsOk(username)
  {
    ProfilePage.ValidateValueRules("username", username);
    Accounts.UsernameCharsOkIff(username);
  }

  /**
   * The two username rules disagree: "___" passes the page's rule (three
   * characters of the allowed set) but fails the server's charset check,
   * since nothing is left once '_' and '-' are removed.
   */
  lemma UsernameRulesDisagree()
    ensures ProfilePage.ValidateValue("username", "___").isValid
    ensures !Accounts.UsernameCharsOk("___")
  {
    var u := "___";
    TrimNoOp(u);
    assert ProfilePage.UsernamePattern(u);
    ProfilePage.ValidateValueRules("username", u);
    Accounts.SeparatorOnlyUsernameRejected(u);
  }
}
