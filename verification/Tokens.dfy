/** The session token text: `token-<username>-<unix seconds>`. */
module Tokens {
  import opened Basics

  const HEAD := "token-"

  function Token(user: string, second: int): string {
    HEAD + user + "-" + FormatInt(second)
  }

  /** Position of the last dash, or -1. */
  function LastDash(t: string): (k: int)
    ensures -1 <= k < |t|
    ensures k >= 0 ==> t[k] == '-'
    ensures forall j | k < j < |t| :: t[j] != '-'
  {
    if t == "" then -1
    else if t[|t| - 1] == '-' then |t| - 1
    else LastDash(t[..|t| - 1])
  }

  /** The user and the second that a token text denotes: what stands before and after its last dash. */
  function Decode(t: string): Option<(string, int)> {
    var k := LastDash(t);
    if |HEAD| <= k then Some((t[|HEAD|..k], Value(t[k + 1..]))) else None
  }

  /** What stands left of the last dash, whatever the sign of the second. */
  function Stem(user: string, second: int): string {
    HEAD + (if second < 0 then user + "-" else user)
  }

  function Abs(n: int): nat {
    if n < 0 then -n else n
  }

  lemma SplitAtLastDash(p: string, d: string)
    requires '-' !in d
    ensures var t := p + "-" + d;
            LastDash(t) == |p| && t[..|p|] == p && t[|p| + 1..] == d
  {
    var t := p + "-" + d;
    assert t[|p|] == '-';
    forall j | |p| < j < |t| ensures t[j] != '-' {
      assert t[j] == d[j - |p| - 1];
    }
  }

  lemma TokenShape(user: string, second: int)
    ensures Token(user, second) == Stem(user, second) + "-" + Digits(Abs(second))
    ensures LastDash(Token(user, second)) == |Stem(user, second)|
    ensures Token(user, second)[..|Stem(user, second)|] == Stem(user, second)
    ensures Token(user, second)[|Stem(user, second)| + 1..] == Digits(Abs(second))
    ensures Value(Digits(Abs(second))) == Abs(second)
  {
    var p, d := Stem(user, second), Digits(Abs(second));
    assert Token(user, second) == p + "-" + d by {
      if second < 0 {
        TokenOfNegative(user, d);
      }
    }
    SplitAtLastDash(p, d);
    ValueOfDigits(Abs(second));
  }

  lemma TokenOfNegative(user: string, d: string)
    ensures HEAD + user + "-" + ("-" + d) == HEAD + (user + "-") + "-" + d
  {
    var h := HEAD;
    assert h + user + "-" + ("-" + d) == h + (user + "-") + "-" + d;
  }

  /** Decoding a token issued at a non-negative second gives back the user and the second,
      even when the name itself holds dashes and digits. */
  lemma DecodeToken(user: string, second: int)
    requires second >= 0
    ensures Decode(Token(user, second)) == Some((user, second))
  {
    TokenShape(user, second);
    var t := Token(user, second);
    assert t[|HEAD|..LastDash(t)] == t[..LastDash(t)][|HEAD|..] == user;
  }

  /** Two logins get the same token exactly when user and second agree, or when one second is the
      negation of the other and the names differ by the dash that stands for the minus sign. */
  lemma TokenCollision(u: string, s: int, v: string, t: int)
    ensures Token(u, s) == Token(v, t) <==>
            || (u == v && s == t)
            || (s < 0 && t == -s && v == u + "-")
            || (t < 0 && s == -t && u == v + "-")
  {
    TokenShape(u, s);
    TokenShape(v, t);
    var x, y := if s < 0 then u + "-" else u, if t < 0 then v + "-" else v;
    PrefixUnderCommonHead(HEAD, x, y);
    assert Token(u, s) == Token(v, t) <==> x == y && Abs(s) == Abs(t);
    if s < 0 && t < 0 && x == y {
      assert u == x[..|x| - 1] == y[..|y| - 1] == v;
    }
  }
}
