/** The password-strength rule applied at registration (`isValidPassword`). */
module Password {

  /** The two character classes the rule tests for: `[a-z]` and `[0-9]`. */
  datatype CharClass = LowerAZ | Digit09

  predicate InClass(c: char, cls: CharClass) {
    match cls
    case LowerAZ => 'a' <= c <= 'z'
    case Digit09 => '0' <= c <= '9'
  }

  /** `/[cls]/.test(s)`: some character of `s` belongs to the class. */
  function Test(cls: CharClass, s: string): (r: bool)
    ensures r <==> exists i :: 0 <= i < |s| && InClass(s[i], cls)
  {
    if s == [] then false else InClass(s[0], cls) || Test(cls, s[1..])
  }

  /**
   * Fifteen characters or more are always accepted; otherwise at least eight,
   * with a lower-case ASCII letter and a digit among them.
   */
  function IsValidPassword(password: string): (r: bool)
    ensures r <==>
      |password| >= 15 ||
      (|password| >= 8 &&
       (exists i :: 0 <= i < |password| && 'a' <= password[i] <= 'z') &&
       (exists i :: 0 <= i < |password| && '0' <= password[i] <= '9'))
    ensures |password| < 8 ==> !r
    ensures |password| >= 15 ==> r
  {
    if |password| >= 15 then true
    else
      var hasLowercase := Test(LowerAZ, password);
      var hasNumber := Test(Digit09, password);
      |password| >= 8 && hasLowercase && hasNumber
  }
}
