/** The argument scanner of the Moodle workflow (`MoodleBrowse.get_creds`):
    it walks the `extra` tokens, reading credentials from a "passfile"
    argument and a role list from a "user_roles" argument. The file system
    is a function from a path to the file's text, if it can be opened. */
module Moodle {
  import opened Wrappers
  import Text

  const Passfile := "passfile"
  const UserRoles := "user_roles"

  /** What `open(path).read()` would give, or None when it raises. */
  type Files = string -> Option<string>

  datatype Creds = Creds(username: string, password: string, userRoles: seq<string>)

  /** Why `get_creds` raises: `extra` is None (`TypeError`), a keyword is the
      last token (`IndexError`), or the named file cannot be opened. */
  datatype CredError = ExtraIsNone | MissingArgument | CannotOpen(path: string)

  /** `file.readline().strip()` for the `n`-th call: the stripped `n`-th
      line, or "" once the file is exhausted. */
  function Line(text: string, n: nat): string {
    var lines := Text.Split(text, '\n');
    if n < |lines| then Text.Strip(lines[n]) else ""
  }

  predicate IsKeyword(token: string) {
    token == Passfile || token == UserRoles
  }

  /** How far the index moves past token `i`. */
  function Step(extra: seq<string>, i: nat): nat
    requires i < |extra|
  {
    if IsKeyword(extra[i]) then 2 else 1
  }

  /** The indices the loop examines, from `i` on; it does not depend on
      the files or on the values read. */
  function Stops(extra: seq<string>, i: nat): (r: seq<nat>)
    ensures forall k :: k in r ==> i <= k < |extra|
    decreases |extra| - i
  {
    if i >= |extra| then [] else [i] + Stops(extra, i + Step(extra, i))
  }

  /** The loop body from index `i` on, with the credentials so far. */
  function Scan(extra: seq<string>, files: Files, i: nat, c: Creds): (Creds, Option<CredError>)
    decreases |extra| - i
  {
    if i >= |extra| then (c, None)
    else if extra[i] == Passfile then
      if i + 1 >= |extra| then (c, Some(MissingArgument))
      else match files(extra[i + 1])
        case None => (c, Some(CannotOpen(extra[i + 1])))
        case Some(text) => Scan(extra, files, i + 2, c.(username := Line(text, 0), password := Line(text, 1)))
    else if extra[i] == UserRoles then
      if i + 1 >= |extra| then (c, Some(MissingArgument))
      else Scan(extra, files, i + 2, c.(userRoles := Text.Split(extra[i + 1], ',')))
    else Scan(extra, files, i + 1, c)
  }

  /** `get_creds(extra)`: reset the roles, then scan. */
  function GetCredsSpec(extra: Option<seq<string>>, files: Files, c: Creds): (Creds, Option<CredError>) {
    var reset := c.(userRoles := []);
    match extra
    case None => (reset, Some(ExtraIsNone))
    case Some(tokens) => Scan(tokens, files, 0, reset)
  }

  /** The loop examines at most one index per token, in increasing order,
      each inside the list: it ends after at most `len(extra)` iterations. */
  lemma {:induction false} StopsBound(extra: seq<string>, i: nat)
    ensures |Stops(extra, i)| <= |extra| - i || i >= |extra|
    ensures forall k :: 0 <= k < |Stops(extra, i)| ==> i <= Stops(extra, i)[k] < |extra|
    ensures forall k, l :: 0 <= k < l < |Stops(extra, i)| ==> Stops(extra, i)[k] < Stops(extra, i)[l]
    decreases |extra| - i
  {
    if i < |extra| {
      StopsBound(extra, i + Step(extra, i));
    }
  }

  /** Without a "passfile" token among those the loop reaches from `i` on,
      user name and password are untouched. */
  lemma {:induction false} NoPassfileKeepsLogin(extra: seq<string>, files: Files, i: nat, c: Creds)
    requires forall k :: k in Stops(extra, i) ==> extra[k] != Passfile
    ensures Scan(extra, files, i, c).0.username == c.username
    ensures Scan(extra, files, i, c).0.password == c.password
    decreases |extra| - i
  {
    if i < |extra| && i + 1 < |extra| && extra[i] == UserRoles {
      NoPassfileKeepsLogin(extra, files, i + 2, c.(userRoles := Text.Split(extra[i + 1], ',')));
    } else if i < |extra| && extra[i] != UserRoles {
      NoPassfileKeepsLogin(extra, files, i + 1, c);
    }
  }

  /** Without a "user_roles" token among those the loop reaches from `i`
      on, the roles are untouched. */
  lemma {:induction false} NoRolesKeepsRoles(extra: seq<string>, files: Files, i: nat, c: Creds)
    requires forall k :: k in Stops(extra, i) ==> extra[k] != UserRoles
    ensures Scan(extra, files, i, c).0.userRoles == c.userRoles
    decreases |extra| - i
  {
    if i < |extra| && i + 1 < |extra| && extra[i] == Passfile && files(extra[i + 1]).Some? {
      var text := files(extra[i + 1]).value;
      NoRolesKeepsRoles(extra, files, i + 2, c.(username := Line(text, 0), password := Line(text, 1)));
    } else if i < |extra| && extra[i] != Passfile {
      NoRolesKeepsRoles(extra, files, i + 1, c);
    }
  }

  /** The roles are reset on every call: when the loop reaches no
      "user_roles" token they end empty. */
  lemma RolesResetEachCall(extra: Option<seq<string>>, files: Files, c: Creds)
    requires extra.Some? ==> forall k :: k in Stops(extra.value, 0) ==> extra.value[k] != UserRoles
    ensures GetCredsSpec(extra, files, c).0.userRoles == []
  {
    if extra.Some? {
      NoRolesKeepsRoles(extra.value, files, 0, c.(userRoles := []));
    }
  }

  /** The last "user_roles" token the loop reaches decides the roles, and it
      does so even when a later token makes the call raise (the files named
      before it must open, or the call stops before reaching it). */
  lemma {:induction false} LastRolesWin(extra: seq<string>, files: Files, i: nat, c: Creds, j: nat)
    requires j in Stops(extra, i)
    requires j + 1 < |extra| && extra[j] == UserRoles
    requires forall k :: k in Stops(extra, i) && k < j && extra[k] == Passfile ==> files(extra[k + 1]).Some?
    requires forall k :: k in Stops(extra, i) && k > j ==> extra[k] != UserRoles
    ensures Scan(extra, files, i, c).0.userRoles == Text.Split(extra[j + 1], ',')
    decreases |extra| - i
  {
    if i == j {
      assert Stops(extra, i) == [j] + Stops(extra, j + 2);
      NoRolesKeepsRoles(extra, files, j + 2, c.(userRoles := Text.Split(extra[j + 1], ',')));
    } else {
      StopsBound(extra, i);
      if extra[i] == Passfile {
        var text := files(extra[i + 1]).value;
        LastRolesWin(extra, files, i + 2, c.(username := Line(text, 0), password := Line(text, 1)), j);
      } else if extra[i] == UserRoles {
        LastRolesWin(extra, files, i + 2, c.(userRoles := Text.Split(extra[i + 1], ',')), j);
      } else {
        LastRolesWin(extra, files, i + 1, c, j);
      }
    }
  }

  /** Likewise the last "passfile" token the loop reaches decides the user
      name and password: the first two lines of that file. */
  lemma {:induction false} LastPassfileWins(extra: seq<string>, files: Files, i: nat, c: Creds, j: nat)
    requires j in Stops(extra, i)
    requires j + 1 < |extra| && extra[j] == Passfile && files(extra[j + 1]).Some?
    requires forall k :: k in Stops(extra, i) && k > j ==> extra[k] != Passfile
    requires forall k :: k in Stops(extra, i) && k < j && extra[k] == Passfile ==> files(extra[k + 1]).Some?
    ensures var text := files(extra[j + 1]).value;
      Scan(extra, files, i, c).0.username == Line(text, 0) && Scan(extra, files, i, c).0.password == Line(text, 1)
    decreases |extra| - i
  {
    if i == j {
      var text := files(extra[j + 1]).value;
      assert Stops(extra, i) == [j] + Stops(extra, j + 2);
      NoPassfileKeepsLogin(extra, files, j + 2, c.(username := Line(text, 0), password := Line(text, 1)));
    } else {
      StopsBound(extra, i);
      if extra[i] == Passfile {
        var text := files(extra[i + 1]).value;
        LastPassfileWins(extra, files, i + 2, c.(username := Line(text, 0), password := Line(text, 1)), j);
      } else if extra[i] == UserRoles {
        LastPassfileWins(extra, files, i + 2, c.(userRoles := Text.Split(extra[i + 1], ',')), j);
      } else {
        LastPassfileWins(extra, files, i + 1, c, j);
      }
    }
  }

  /** When the loop reaches a keyword that is the last token, the call raises. */
  lemma {:induction false} FinalKeywordRaises(extra: seq<string>, files: Files, i: nat, c: Creds)
    requires |extra| >= 1 && IsKeyword(extra[|extra| - 1])
    requires |extra| - 1 in Stops(extra, i)
    ensures Scan(extra, files, i, c).1.Some?
    decreases |extra| - i
  {
    StopsBound(extra, i);
    if i < |extra| - 1 {
      if extra[i] == Passfile {
        if files(extra[i + 1]).Some? {
          var text := files(extra[i + 1]).value;
          FinalKeywordRaises(extra, files, i + 2, c.(username := Line(text, 0), password := Line(text, 1)));
        }
      } else if extra[i] == UserRoles {
        FinalKeywordRaises(extra, files, i + 2, c.(userRoles := Text.Split(extra[i + 1], ',')));
      } else {
        FinalKeywordRaises(extra, files, i + 1, c);
      }
    }
  }

  /** The Moodle workflow's credentials. */
  class MoodleBrowse {
    var username: string
    var password: string
    var userRoles: seq<string>

    constructor ()
      ensures username == "jdh" && password == "jdhpass" && userRoles == ["admin"]
    {
      username := "jdh";
      password := "jdhpass";
      userRoles := ["admin"];
    }

    /** `get_creds`. */
    method GetCreds(extra: Option<seq<string>>, files: Files) returns (error: Option<CredError>)
      modifies this
      ensures (Creds(username, password, userRoles), error) == GetCredsSpec(extra, files, Creds(old(username), old(password), old(userRoles)))
    {
      ghost var start := Creds(username, password, userRoles);
      userRoles := [];
      if extra.None? {
        return Some(ExtraIsNone);
      }
      var tokens := extra.value;
      var i := 0;
      while i < |tokens|
        invariant i <= |tokens|
        invariant GetCredsSpec(extra, files, start) == Scan(tokens, files, i, Creds(username, password, userRoles))
        decreases |tokens| - i
      {
        if tokens[i] == Passfile {
          if i + 1 >= |tokens| {
            return Some(MissingArgument);
          }
          var text := files(tokens[i + 1]);
          if text.None? {
            return Some(CannotOpen(tokens[i + 1]));
          }
          username := Line(text.value, 0);
          password := Line(text.value, 1);
          i := i + 2;
        } else if tokens[i] == UserRoles {
          if i + 1 >= |tokens| {
            return Some(MissingArgument);
          }
          userRoles := Text.Split(tokens[i + 1], ',');
          i := i + 2;
        } else {
          i := i + 1;
        }
      }
      error := None;
    }
  }
}
