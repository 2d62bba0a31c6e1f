/**
 * The Client document (models/clients.js): field limits, the e-mail pattern,
 * the status enum with its default, and `isActive`.
 */
module ClientModel {
  import opened Wrappers
  import opened Strings

  /** A stored client; `createdAt` is the timestamp the schema's `timestamps` option records. */
  datatype Client = Client(
    id: Id,
    name: string,
    contact: string,
    email: string,
    phone: Option<string>,
    address: Option<string>,
    contractNumber: string,
    status: string,
    notes: Option<string>,
    createdAt: int)

  const MaxNameLength := 100
  const MaxContactLength := 100
  const MaxPhoneLength := 20
  const MaxAddressLength := 200
  const MaxContractNumberLength := 50
  const MaxNotesLength := 500

  predicate IsClientStatus(s: string) {
    s == "active" || s == "inactive"
  }

  predicate IsSeparator(c: char) {
    c == '.' || c == '-'
  }

  /**
   * The pattern `\w+([.-]?\w+)*`: word characters, where single `.` or `-`
   * may separate runs of them; it starts and ends with a word character.
   */
  predicate IsWordRun(s: string) {
    && |s| > 0 && IsWordChar(s[0]) && IsWordChar(s[|s| - 1])
    && (forall i :: 0 <= i < |s| ==> IsWordChar(s[i]) || IsSeparator(s[i]))
    && (forall i :: 0 <= i < |s| - 1 ==> !(IsSeparator(s[i]) && IsSeparator(s[i + 1])))
  }

  /** Whether `s` ends in `.` and `n` word characters. */
  predicate EndsInDotWord(s: string, n: nat) {
    && |s| > n
    && s[|s| - n - 1] == '.'
    && (forall i :: |s| - n <= i < |s| ==> IsWordChar(s[i]))
  }

  /** The domain part `\w+([.-]?\w+)*(\.\w{2,3})+`: a word run followed by `.` and a final run of 2 or 3 word characters. */
  predicate IsEmailDomain(d: string) {
    || (EndsInDotWord(d, 2) && IsWordRun(d[..|d| - 3]))
    || (EndsInDotWord(d, 3) && IsWordRun(d[..|d| - 4]))
  }

  /** The pattern `^\w+([.-]?\w+)*@\w+([.-]?\w+)*(\.\w{2,3})+$`. */
  predicate IsEmail(s: string) {
    exists i | 0 <= i < |s| :: s[i] == '@' && IsWordRun(s[..i]) && IsEmailDomain(s[i + 1..])
  }

  /** Neither a word run nor a domain holds an `@`. */
  lemma NoAtInParts(s: string, k: int)
    requires IsWordRun(s) || IsEmailDomain(s)
    requires 0 <= k < |s|
    ensures s[k] != '@'
  {
    if !IsWordRun(s) {
      if EndsInDotWord(s, 2) && IsWordRun(s[..|s| - 3]) {
        if k < |s| - 3 {
          assert s[..|s| - 3][k] == s[k];
        }
      } else if k < |s| - 4 {
        assert s[..|s| - 4][k] == s[k];
      }
    }
  }

  /** An accepted address holds exactly one `@` and ends in `.` followed by two or three word characters. */
  lemma EmailShape(s: string)
    requires IsEmail(s)
    ensures exists i :: 0 <= i < |s| && s[i] == '@' && forall j :: 0 <= j < |s| && s[j] == '@' ==> j == i
    ensures EndsInDotWord(s, 2) || EndsInDotWord(s, 3)
  {
    var i :| 0 <= i < |s| && s[i] == '@' && IsWordRun(s[..i]) && IsEmailDomain(s[i + 1..]);
    var d := s[i + 1..];
    forall j | 0 <= j < |s| && j != i ensures s[j] != '@' {
      if j < i {
        NoAtInParts(s[..i], j);
        assert s[..i][j] == s[j];
      } else {
        NoAtInParts(d, j - i - 1);
        assert d[j - i - 1] == s[j];
      }
    }
    if EndsInDotWord(d, 2) {
      assert s[|s| - 3] == d[|d| - 3];
      assert forall k :: |s| - 2 <= k < |s| ==> s[k] == d[k - i - 1];
    } else {
      assert s[|s| - 4] == d[|d| - 4];
      assert forall k :: |s| - 3 <= k < |s| ==> s[k] == d[k - i - 1];
    }
  }

  /** `jean.dupont@cafe-pause.fr` is accepted. */
  lemma EmailExample()
    ensures IsEmail("jean.dupont@cafe-pause.fr")
  {
    var s := "jean.dupont@cafe-pause.fr";
    var d := s[12..];
    assert d == "cafe-pause.fr";
    assert d[..|d| - 3] == "cafe-pause";
    assert IsWordRun(s[..11]) by {
      assert s[..11] == "jean.dupont";
    }
    assert EndsInDotWord(d, 2);
    assert s[11] == '@';
  }

  /** An address without a final `.` and 2 or 3 word characters is refused. */
  lemma EmailNeedsTopLevel(s: string)
    requires !EndsInDotWord(s, 2) && !EndsInDotWord(s, 3)
    ensures !IsEmail(s)
  {
    if IsEmail(s) {
      EmailShape(s);
    }
  }

  /**
   * The schema's validators on a stored document: the required fields are
   * non-empty, every field within its length limit, the e-mail matches the
   * pattern and the status is one of the enum's values.
   */
  predicate ValidClient(c: Client) {
    && c.name != "" && |c.name| <= MaxNameLength
    && c.contact != "" && |c.contact| <= MaxContactLength
    && IsEmail(c.email)
    && (c.phone.Some? ==> |c.phone.value| <= MaxPhoneLength)
    && (c.address.Some? ==> |c.address.value| <= MaxAddressLength)
    && c.contractNumber != "" && |c.contractNumber| <= MaxContractNumberLength
    && IsClientStatus(c.status)
    && (c.notes.Some? ==> |c.notes.value| <= MaxNotesLength)
  }

  /** The e-mail path's setters: `trim`, then `lowercase`. */
  function EmailSetter(s: string): (r: string)
    ensures |r| <= |s| && |r| == |Trim(s)|
    ensures forall i :: 0 <= i < |r| ==> r[i] == LowerChar(Trim(s)[i]) && !('A' <= r[i] <= 'Z')
  {
    ToLower(Trim(s))
  }

  /** Applying the e-mail setters to a stored e-mail changes nothing. */
  lemma EmailSetterIdempotent(s: string)
    ensures EmailSetter(EmailSetter(s)) == EmailSetter(s)
  {
    TrimToLower(Trim(s));
    TrimIdempotent(s);
    ToLowerIdempotent(Trim(s));
  }

  /** `isActive()`. */
  predicate IsActive(c: Client) {
    c.status == "active"
  }

  /** For a valid client, being active is exactly not being inactive. */
  lemma ActiveOrInactive(c: Client)
    requires ValidClient(c)
    ensures IsActive(c) <==> c.status != "inactive"
  {
  }
}
