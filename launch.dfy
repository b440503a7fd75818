/**
 * The command-line checks of the server (ScribbleServeur.java) and of the client
 * (ScribbleClient.java). Printing the usage ends the program; it is an outcome here.
 */
module Launch {
  import opened Common

  /** String.matches("[0-9]+"): one or more ASCII digits. */
  predicate IsDigits(s: string)
  {
    |s| > 0 && forall i :: 0 <= i < |s| ==> '0' <= s[i] <= '9'
  }

  /** The help options are not numbers. */
  lemma HelpIsNotDigits()
    ensures !IsDigits("-h") && !IsDigits("--help")
  {
    assert "-h"[0] == '-';
    assert "--help"[0] == '-';
  }

  /** The value of a string of decimal digits, most significant first. */
  function DecimalValue(s: string): (v: nat)
    requires forall i :: 0 <= i < |s| ==> '0' <= s[i] <= '9'
  {
    if s == [] then 0
    else 10 * DecimalValue(s[..|s| - 1]) + (s[|s| - 1] as int - '0' as int)
  }

  function Pow10(n: nat): (p: nat)
    ensures p >= 1
  {
    if n == 0 then 1 else 10 * Pow10(n - 1)
  }

  /** n digits make a number below 10^n. */
  lemma {:induction false} DecimalValueBound(s: string)
    requires forall i :: 0 <= i < |s| ==> '0' <= s[i] <= '9'
    ensures DecimalValue(s) < Pow10(|s|)
  {
    if s != [] {
      DecimalValueBound(s[..|s| - 1]);
    }
  }

  /** Any port of at most nine digits, leading zeros included, fits in an int. */
  lemma {:induction false} NineDigitsFit(s: string)
    requires IsDigits(s) && |s| <= 9
    ensures DecimalValue(s) <= INT_MAX
  {
    DecimalValueBound(s);
    Pow10Monotone(|s|, 9);
    assert Pow10(9) == 1000000000 by {
      assert Pow10(3) == 1000;
      assert Pow10(6) == 1000 * Pow10(3) by { Pow10Add(3, 3); }
      assert Pow10(9) == 1000 * Pow10(6) by { Pow10Add(3, 6); }
    }
  }

  lemma {:induction false} Pow10Add(m: nat, n: nat)
    ensures Pow10(m + n) == Pow10(m) * Pow10(n)
  {
    if m > 0 {
      Pow10Add(m - 1, n);
    }
  }

  lemma {:induction false} Pow10Monotone(m: nat, n: nat)
    requires m <= n
    ensures Pow10(m) <= Pow10(n)
  {
    if m < n {
      Pow10Monotone(m, n - 1);
    }
  }

  datatype ServerOutcome = ServerUsage | Returned

  /**
   * ScribbleServeur.testlaunch as written: it prints the usage or returns, and nothing else.
   * It returns exactly for one argument made of digits; the help checks add nothing.
   */
  function ServerTestLaunch(args: seq<string>): (r: ServerOutcome)
    ensures r == Returned <==> |args| == 1 && IsDigits(args[0])
  {
    HelpIsNotDigits();
    if |args| != 1 || args[0] == "-h" || args[0] == "--help" || !IsDigits(args[0]) then ServerUsage
    else Returned
  }

  datatype ServerStart = ServerRejects | ServerPortOverflow | Listen(port: Int32)

  /**
   * The launch the server evidently intends: after the same check, the port is parsed as
   * an int (which fails above INT_MAX) and a server is constructed on it.
   */
  function ServerLaunch(args: seq<string>): (r: ServerStart)
    ensures r.Listen? <==> |args| == 1 && IsDigits(args[0]) && DecimalValue(args[0]) <= INT_MAX
    ensures r.Listen? ==> r.port == DecimalValue(args[0])
    ensures r == ServerRejects <==> !(|args| == 1 && IsDigits(args[0]))
  {
    if ServerTestLaunch(args) == ServerUsage then ServerRejects
    else if DecimalValue(args[0]) > INT_MAX then ServerPortOverflow
    else Listen(DecimalValue(args[0]))
  }

  /** As written, a well-formed port such as 8080 is accepted, and yet no server is started. */
  lemma ServerNeverStarts(args: seq<string>)
    requires args == ["8080"]
    ensures ServerTestLaunch(args) == Returned
    ensures ServerLaunch(args) == Listen(8080)
  {
    var s := args[0];
    assert IsDigits(s);
    assert s[..3][..2][..1] == "8";
    assert DecimalValue(s[..1]) == 8;
    assert DecimalValue(s[..2]) == 80 by { assert s[..2][..1] == s[..1]; }
    assert DecimalValue(s[..3]) == 808 by { assert s[..3][..2] == s[..2]; }
    assert DecimalValue(s) == 8080 by { assert s[..4][..3] == s[..3]; assert s[..4] == s; }
  }

  datatype ClientOutcome = ClientUsage | NumberFormatError | Connect(host: string, port: Int32)

  /**
   * ScribbleClient.testLaunch: the usage when a help option appears anywhere, when there
   * are not two arguments or when the port is not digits; otherwise Integer.parseInt,
   * which throws above INT_MAX, and a client for that host and port. The arguments pass the
   * check exactly when there are two, the first is not a help option and the second is
   * digits; the host is otherwise unconstrained.
   */
  function ClientTestLaunch(args: seq<string>): (r: ClientOutcome)
    ensures r != ClientUsage <==> |args| == 2 && args[0] != "-h" && args[0] != "--help" && IsDigits(args[1])
  {
    HelpIsNotDigits();
    assert |args| == 2 ==> ("-h" in args <==> args[0] == "-h" || args[1] == "-h");
    assert |args| == 2 ==> ("--help" in args <==> args[0] == "--help" || args[1] == "--help");
    if "-h" in args || "--help" in args || |args| != 2 || !IsDigits(args[1]) then ClientUsage
    else if DecimalValue(args[1]) > INT_MAX then NumberFormatError
    else Connect(args[0], DecimalValue(args[1]))
  }

  /** A client connects to the host it was given, on the port's decimal value, when that fits. */
  lemma ClientConnects(args: seq<string>)
    requires ClientTestLaunch(args) != ClientUsage
    ensures ClientTestLaunch(args).Connect? <==> DecimalValue(args[1]) <= INT_MAX
    ensures ClientTestLaunch(args).Connect? ==>
      ClientTestLaunch(args).host == args[0] && ClientTestLaunch(args).port == DecimalValue(args[1])
    ensures |args[1]| <= 9 ==> ClientTestLaunch(args).Connect?
  {
    if |args[1]| <= 9 {
      NineDigitsFit(args[1]);
    }
  }
}
