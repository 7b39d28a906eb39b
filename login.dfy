/** The `loginForm` schema of src/validation/index.ts as a validator: the
    e-mail must have 2 to 50 characters and the key at least 4, counted as
    JavaScript's `length` counts them, in UTF-16 code units. */
module LoginValidation {
  import opened Wrappers

  datatype Field = Email | Key

  /** A failed length check; `message` is the schema's custom message, or
      `None` where the schema leaves the library's default text. */
  datatype Issue = TooShort(field: Field, minimum: nat, message: Option<string>)
                 | TooLong(field: Field, maximum: nat, message: Option<string>)

  const EmailMin: nat := 2
  const EmailMax: nat := 50
  const KeyMin: nat := 4
  const EmailTooShortMessage: string := "Este campo não pode ficar vazio"
  const KeyTooShortMessage: string := "Precisa ter ao menos 4 digitos."

  /** `s.length`: one UTF-16 code unit per character of the Basic
      Multilingual Plane, two (a surrogate pair) per character above it. */
  function Utf16Length(s: string): (n: nat)
    ensures |s| <= n <= 2 * |s|
    ensures (forall i :: 0 <= i < |s| ==> s[i] as int <= 0xFFFF) ==> n == |s|
  {
    if s == [] then 0 else (if s[0] as int > 0xFFFF then 2 else 1) + Utf16Length(s[1..])
  }

  /** Every check the schema runs, in declaration order: e-mail minimum,
      e-mail maximum, key minimum. */
  function Validate(email: string, key: string): (issues: seq<Issue>)
    ensures |issues| <= 2
    ensures Utf16Length(email) < EmailMin <==> TooShort(Email, EmailMin, Some(EmailTooShortMessage)) in issues
    ensures Utf16Length(email) > EmailMax <==> TooLong(Email, EmailMax, None) in issues
    ensures Utf16Length(key) < KeyMin <==> TooShort(Key, KeyMin, Some(KeyTooShortMessage)) in issues
  {
    (if Utf16Length(email) < EmailMin then [TooShort(Email, EmailMin, Some(EmailTooShortMessage))] else [])
    + (if Utf16Length(email) > EmailMax then [TooLong(Email, EmailMax, None)] else [])
    + (if Utf16Length(key) < KeyMin then [TooShort(Key, KeyMin, Some(KeyTooShortMessage))] else [])
  }

  predicate Accepted(email: string, key: string) {
    Validate(email, key) == []
  }

  /** The form is accepted exactly when both lengths are in bounds; nothing
      checks that the e-mail has an e-mail's shape. */
  lemma AcceptedIff(email: string, key: string)
    ensures Accepted(email, key) <==> EmailMin <= Utf16Length(email) <= EmailMax && Utf16Length(key) >= KeyMin
  {
    var a := if Utf16Length(email) < EmailMin then [TooShort(Email, EmailMin, Some(EmailTooShortMessage))] else [];
    var b := if Utf16Length(email) > EmailMax then [TooLong(Email, EmailMax, None)] else [];
    var c := if Utf16Length(key) < KeyMin then [TooShort(Key, KeyMin, Some(KeyTooShortMessage))] else [];
    assert Validate(email, key) == a + b + c;
    assert |a + b + c| == |a| + |b| + |c|;
  }

  /** A single character outside the Basic Multilingual Plane is two code
      units long, so as an e-mail it passes the minimum of 2. */
  lemma AstralEmailLongEnough(c: char, key: string)
    requires c as int > 0xFFFF
    ensures TooShort(Email, EmailMin, Some(EmailTooShortMessage)) !in Validate([c], key)
  {
    assert [c][1..] == [];
  }
}
