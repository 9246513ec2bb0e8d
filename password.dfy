/** The sign-up page's password policy: five character-class checks and
    their conjunction. */
module PasswordPolicy {
  import opened JsStrings

  /** A bracketed regular-expression character class: a range such as
      `[a-z]`, or an explicit list of characters. */
  datatype CharClass = Range(lo: char, hi: char) | OneOf(chars: set<char>)

  predicate InClass(c: char, cls: CharClass) {
    match cls
    case Range(lo, hi) => lo <= c <= hi
    case OneOf(chars) => c in chars
  }

  /** The characters of `[!@#$%^&*()_+\-=\[\]{};':"\\|,.<>\/?]`, escapes
      resolved. */
  const SymbolChars: set<char> := {
    '!', '@', '#', '$', '%', '^', '&', '*', '(', ')', '_', '+', '-', '=',
    '[', ']', '{', '}', ';', '\'', ':', '"', '\\', '|', ',', '.', '<', '>',
    '/', '?'
  }

  const Lowercase := Range('a', 'z')
  const Uppercase := Range('A', 'Z')
  /** `\d` without the `u` flag: the ASCII digits only. */
  const Digit := Range('0', '9')
  const Symbol := OneOf(SymbolChars)

  /** `/cls/.test(s)`: some character of `s` lies in the class. The source
      regexes have no `u` flag, so they scan UTF-16 code units; a surrogate
      code unit lies in none of the four classes, so scanning Unicode
      characters gives the same answer. */
  function Test(cls: CharClass, s: string): (found: bool)
    ensures found <==> exists i :: 0 <= i < |s| && InClass(s[i], cls)
  {
    if s == [] then false
    else
      var rest := Test(cls, s[1..]);
      assert forall i :: 0 <= i < |s| - 1 ==> s[1..][i] == s[i + 1];
      InClass(s[0], cls) || rest
  }

  /** The object `validatePassword` returns. */
  datatype Verdict = Verdict(
    isValid: bool,
    minLength: bool,
    hasLowercase: bool,
    hasUppercase: bool,
    hasDigit: bool,
    hasSymbol: bool)

  /** `validatePassword`: each flag is one independent check and `isValid`
      is their conjunction. */
  function ValidatePassword(password: string): (v: Verdict)
    ensures v.minLength <==> Utf16Length(password) >= 8
    ensures v.hasLowercase <==> exists i :: 0 <= i < |password| && 'a' <= password[i] <= 'z'
    ensures v.hasUppercase <==> exists i :: 0 <= i < |password| && 'A' <= password[i] <= 'Z'
    ensures v.hasDigit <==> exists i :: 0 <= i < |password| && '0' <= password[i] <= '9'
    ensures v.hasSymbol <==> exists i :: 0 <= i < |password| && password[i] in SymbolChars
    ensures v.isValid <==> v.minLength && v.hasLowercase && v.hasUppercase && v.hasDigit && v.hasSymbol
  {
    var minLength := Utf16Length(password) >= 8;
    var hasLowercase := Test(Lowercase, password);
    var hasUppercase := Test(Uppercase, password);
    var hasDigit := Test(Digit, password);
    var hasSymbol := Test(Symbol, password);
    Verdict(
      minLength && hasLowercase && hasUppercase && hasDigit && hasSymbol,
      minLength, hasLowercase, hasUppercase, hasDigit, hasSymbol)
  }

  /** Printable ASCII punctuation: everything from `!` to `~` that is
      neither a letter nor a digit. */
  predicate IsAsciiPunctuation(c: char) {
    ('!' <= c <= '/') || (':' <= c <= '@') || ('[' <= c <= '`') || ('{' <= c <= '~')
  }

  /** The symbol class is ASCII punctuation except the backtick and the
      tilde. */
  lemma SymbolsAreAsciiPunctuationButBacktickAndTilde(c: char)
    ensures c in SymbolChars <==> IsAsciiPunctuation(c) && c != '`' && c != '~'
  {
  }

  /** A password made only of letters, digits, backticks and tildes never
      has a symbol, whatever its length. */
  lemma {:induction false} BacktickAndTildeAreNoSymbols(password: string)
    requires forall i :: 0 <= i < |password| ==>
      password[i] == '`' || password[i] == '~' ||
      ('a' <= password[i] <= 'z') || ('A' <= password[i] <= 'Z') || ('0' <= password[i] <= '9')
    ensures !ValidatePassword(password).hasSymbol
    ensures !ValidatePassword(password).isValid
  {
    forall i | 0 <= i < |password|
      ensures password[i] !in SymbolChars
    {
      SymbolsAreAsciiPunctuationButBacktickAndTilde(password[i]);
    }
  }

  /** Eight characters meeting every class are enough. */
  lemma ExampleValid()
    ensures ValidatePassword("Abcdef1!").isValid
  {
    var good := "Abcdef1!";
    assert 'a' <= good[1] <= 'z' && 'A' <= good[0] <= 'Z' && '0' <= good[6] <= '9';
    assert good[7] in SymbolChars;
    Utf16LengthOfBmp(good);
  }

  /** One character short is not enough. */
  lemma ExampleTooShort()
    ensures !ValidatePassword("Abcde1!").minLength
  {
    Utf16LengthOfBmp("Abcde1!");
  }

  /** A tilde in place of the symbol is not enough. */
  lemma ExampleTildeIsNoSymbol()
    ensures !ValidatePassword("Abcdef1~").isValid
  {
    BacktickAndTildeAreNoSymbols("Abcdef1~");
  }
}
