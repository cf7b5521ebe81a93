/** The human-typer shell session (`HumanTyperShell`): keystrokes with
    self-corrected typos written to a pseudo-terminal, a buffer the reader
    thread appends the shell's output to, and a prompt wait that times out
    only after the buffer has stopped growing. The pty is a byte log, the
    reader's data and the random typo decisions are parameters, the prompt
    regex is a search function, and time is counted in 50 ms polls. */
module HumanTyper {
  import opened Wrappers
  import Text

  /** A byte written to or read from the pty. */
  newtype byte = x: int | 0 <= x < 256

  const Del: byte := 0x7F
  const Newline: byte := 0x0A

  /** The pause between two polls of `_wait_for_prompt`, in milliseconds. */
  const PollIntervalMs := 50
  /** `_wait_for_prompt`'s own default timeout, the one the startup wait uses. */
  const DefaultWaitTimeoutMs := 10000
  /** The default `prompt_timeout`, used for the wait after every command. */
  const DefaultPromptTimeoutMs := 10000
  /** The bytes `close` writes: "exit\n". */
  const ExitBytes: seq<byte> := [0x65, 0x78, 0x69, 0x74, 0x0A]

  // ---------------------------------------------------------------- encoding

  /** The UTF-8 continuation byte that carries bits `6 * k` to `6 * k + 5` of `n`. */
  function Continuation(n: nat, k: nat): (b: byte)
    ensures 0x80 <= b < 0xC0
    decreases k
  {
    if k == 0 then (0x80 + n % 64) as byte else Continuation(n / 64, k - 1)
  }

  /** `c.encode()`: the UTF-8 bytes of one character. */
  function Utf8(c: char): (r: seq<byte>)
    ensures 1 <= |r| <= 4
    ensures c as int < 0x80 ==> r == [(c as int) as byte]
    ensures c as int != 0x7F ==> Del !in r
  {
    var n := c as int;
    assert n <= 0x10FFFF;
    if n < 0x80 then [n as byte]
    else if n < 0x800 then [(0xC0 + n / 64) as byte, Continuation(n, 0)]
    else if n < 0x10000 then [(0xE0 + n / 4096) as byte, Continuation(n, 1), Continuation(n, 0)]
    else [(0xF0 + n / 262144) as byte, Continuation(n, 2), Continuation(n, 1), Continuation(n, 0)]
  }

  /** `s.encode()` for a whole string. */
  function Utf8String(s: string): seq<byte>
    decreases |s|
  {
    if s == [] then [] else Utf8String(s[..|s| - 1]) + Utf8(s[|s| - 1])
  }

  // ---------------------------------------------------------------- keystrokes

  predicate Printable(s: string) {
    |s| > 0 && forall k :: 0 <= k < |s| ==> ' ' <= s[k] <= '~'
  }

  /** `qwerty_neighbors.get(key)`: the keys a typo for `key` is drawn from,
      for the 39 keys of the table, and nothing for any other key. Every
      list in the table is non-empty printable ASCII. */
  function QwertyNeighbors(key: char): (r: Option<string>)
    ensures r.Some? ==> Printable(r.value)
  {
    match key
    case 'a' => Some("qwsz")
    case 'b' => Some("vghn")
    case 'c' => Some("xdfv")
    case 'd' => Some("serfcx")
    case 'e' => Some("wsdr")
    case 'f' => Some("drtgvc")
    case 'g' => Some("ftyhbv")
    case 'h' => Some("gyujnb")
    case 'i' => Some("ujko")
    case 'j' => Some("huikmn")
    case 'k' => Some("jiolm")
    case 'l' => Some("kop")
    case 'm' => Some("njk")
    case 'n' => Some("bhjm")
    case 'o' => Some("iklp")
    case 'p' => Some("ol")
    case 'q' => Some("wa")
    case 'r' => Some("edft")
    case 's' => Some("awedxz")
    case 't' => Some("rfgy")
    case 'u' => Some("yhji")
    case 'v' => Some("cfgb")
    case 'w' => Some("qase")
    case 'x' => Some("zsdc")
    case 'y' => Some("tugh")
    case 'z' => Some("asx")
    case '1' => Some("2q")
    case '2' => Some("13w")
    case '3' => Some("24e")
    case '4' => Some("35r")
    case '5' => Some("46t")
    case '6' => Some("57y")
    case '7' => Some("68u")
    case '8' => Some("79i")
    case '9' => Some("80o")
    case '0' => Some("9p")
    case '-' => Some("0p")
    case '=' => Some("-")
    case ' ' => Some(" ")
    case _ => None
  }

  const Alphabet := "abcdefghijklmnopqrstuvwxyz"

  /** The random choices of one character: no typo, or a burst whose length
      (`random.choice([1, 3])`) is that of `picks`, each pick choosing among
      the candidate characters. */
  datatype TypoDecision = NoTypo | Typo(picks: seq<nat>)

  predicate ValidTypos(typos: seq<TypoDecision>, n: nat) {
    |typos| == n && forall k :: 0 <= k < n && typos[k].Typo? ==> |typos[k].picks| == 1 || |typos[k].picks| == 3
  }

  /** `c.lower()` as a key of the neighbour table. Besides the ASCII capitals,
      the one character Python lowers to a single ASCII character is U+212A
      KELVIN SIGN, which becomes 'k'. Any other character lowers to a string
      that is not a key, as it does here by staying unchanged. */
  function LowerKey(c: char): char {
    if c == '\U{212A}' then 'k' else Text.LowerChar(c)
  }

  /** The candidates for a typo of `c`: the neighbours of `c.lower()` when
      the table has that key, otherwise (a random choice of) one lower-case
      letter. */
  function Candidates(c: char): (s: string)
    ensures Printable(s)
  {
    match QwertyNeighbors(LowerKey(c))
    case Some(neighbors) => neighbors
    case None => Alphabet
  }

  /** A capital letter, and the Kelvin sign that Python lowers to 'k', take
      their typos from the neighbours of the lower-case key. */
  lemma CapitalsUseLowerNeighbors(c: char)
    requires 'A' <= c <= 'Z' || c == '\U{212A}'
    ensures c == '\U{212A}' ==> Candidates(c) == "jiolm"
    ensures 'A' <= c <= 'Z' ==> Candidates(c) == Candidates((c as int + 32) as char)
  {
  }

  /** The character one typo keystroke writes for `c`. */
  function TypoChar(c: char, pick: nat): (t: char)
    ensures ' ' <= t <= '~'
  {
    var options := Candidates(c);
    options[pick % |options|]
  }

  /** A typo keystroke is always one of the candidates for its character. */
  lemma TypoCharIsCandidate(c: char, pick: nat)
    ensures TypoChar(c, pick) in Candidates(c)
  {
    var options := Candidates(c);
    assert options[pick % |options|] in options;
  }

  /** The substitute characters of one typo burst, in order. */
  function TypoBytes(c: char, picks: seq<nat>): seq<byte>
    decreases |picks|
  {
    if picks == [] then [] else TypoBytes(c, picks[..|picks| - 1]) + Utf8(TypoChar(c, picks[|picks| - 1]))
  }

  /** `n` backspace (0x7F) bytes. */
  function Dels(n: nat): (r: seq<byte>)
    ensures |r| == n && forall k :: 0 <= k < n ==> r[k] == Del
  {
    seq(n, _ => Del)
  }

  /** The bytes written for one character of the command: optionally a typo
      burst and as many backspaces, then the character itself. */
  function CharKeys(c: char, d: TypoDecision): seq<byte> {
    match d
    case NoTypo => Utf8(c)
    case Typo(picks) => TypoBytes(c, picks) + Dels(|picks|) + Utf8(c)
  }

  /** The bytes written for the characters of a command, before the newline. */
  function Keys(command: string, typos: seq<TypoDecision>): seq<byte>
    requires |typos| == |command|
    decreases |command|
  {
    if command == [] then []
    else Keys(command[..|command| - 1], typos[..|command| - 1]) + CharKeys(command[|command| - 1], typos[|command| - 1])
  }

  /** The bytes for the first `i + 1` characters extend those for the first `i`. */
  lemma KeysStep(command: string, typos: seq<TypoDecision>, i: nat)
    requires |typos| == |command| && i < |command|
    ensures Keys(command[..i + 1], typos[..i + 1]) == Keys(command[..i], typos[..i]) + CharKeys(command[i], typos[i])
  {
    assert command[..i + 1][..i] == command[..i];
    assert typos[..i + 1][..i] == typos[..i];
  }

  /** A typo burst writes exactly one printable byte per pick, each one a
      candidate for the intended character, and never a backspace. */
  lemma {:induction false} TypoBytesShape(c: char, picks: seq<nat>)
    ensures |TypoBytes(c, picks)| == |picks|
    ensures forall k :: 0 <= k < |picks| ==> TypoBytes(c, picks)[k] == (TypoChar(c, picks[k]) as int) as byte
    ensures Del !in TypoBytes(c, picks)
    decreases |picks|
  {
    if picks != [] {
      var n := |picks| - 1;
      var front := picks[..n];
      TypoBytesShape(c, front);
      var t := TypoChar(c, picks[n]);
      var b := (t as int) as byte;
      assert Utf8(t) == [b];
      assert TypoBytes(c, picks) == TypoBytes(c, front) + [b];
      assert b != Del;
      forall k | 0 <= k < |picks|
        ensures TypoBytes(c, picks)[k] == (TypoChar(c, picks[k]) as int) as byte
      {
        if k < n {
          assert front[k] == picks[k];
          assert TypoBytes(c, picks)[k] == TypoBytes(c, front)[k];
        } else {
          assert TypoBytes(c, picks)[k] == b;
        }
      }
    }
  }

  /** Without typos, the bytes written for a command are its characters, in order. */
  lemma {:induction false} NoTypoKeys(command: string, typos: seq<TypoDecision>)
    requires |typos| == |command|
    requires forall k :: 0 <= k < |typos| ==> typos[k] == NoTypo
    ensures Keys(command, typos) == Utf8String(command)
    decreases |command|
  {
    if command != [] {
      NoTypoKeys(command[..|command| - 1], typos[..|command| - 1]);
    }
  }

  /** What the terminal's line holds after receiving `s`, when 0x7F deletes
      the byte before it. */
  function Erase(line: seq<byte>, s: seq<byte>): seq<byte>
    decreases |s|
  {
    if s == [] then line
    else if s[0] == Del then Erase(if line == [] then [] else line[..|line| - 1], s[1..])
    else Erase(line + [s[0]], s[1..])
  }

  lemma {:induction false} EraseAppend(line: seq<byte>, s: seq<byte>, t: seq<byte>)
    ensures Erase(line, s + t) == Erase(Erase(line, s), t)
    decreases |s|
  {
    if s != [] {
      assert (s + t)[1..] == s[1..] + t;
      var line' := if s[0] == Del then (if line == [] then [] else line[..|line| - 1]) else line + [s[0]];
      assert (s + t)[0] == s[0];
      assert Erase(line, s + t) == Erase(line', (s + t)[1..]);
      assert Erase(line, s) == Erase(line', s[1..]);
      EraseAppend(line', s[1..], t);
    } else {
      assert s + t == t;
    }
  }

  /** Bytes without a backspace are added to the line as they are. */
  lemma {:induction false} ErasePlain(line: seq<byte>, s: seq<byte>)
    requires Del !in s
    ensures Erase(line, s) == line + s
    decreases |s|
  {
    if s != [] {
      ErasePlain(line + [s[0]], s[1..]);
      assert line + [s[0]] + s[1..] == line + s;
    }
  }

  /** `n` backspaces after `n` plain bytes leave the line as it was. */
  lemma {:induction false} EraseBurst(line: seq<byte>, burst: seq<byte>)
    requires Del !in burst
    ensures Erase(line, burst + Dels(|burst|)) == line
    decreases |burst|
  {
    EraseAppend(line, burst, Dels(|burst|));
    ErasePlain(line, burst);
    if burst != [] {
      var n := |burst|;
      var last := burst[n - 1];
      assert Dels(n) == [Del] + Dels(n - 1);
      assert (line + burst)[..|line + burst| - 1] == line + burst[..n - 1];
      assert Erase(line + burst, Dels(n)) == Erase(line + burst[..n - 1], Dels(n - 1));
      EraseBurst(line, burst[..n - 1]);
      EraseAppend(line, burst[..n - 1], Dels(n - 1));
      ErasePlain(line, burst[..n - 1]);
    }
  }

  /** The bytes written for one character other than U+007F leave exactly
      that character on the line: a typo burst is erased by its own
      backspaces. */
  lemma CharKeysErase(line: seq<byte>, c: char, d: TypoDecision)
    requires c as int != 0x7F
    ensures Erase(line, CharKeys(c, d)) == line + Utf8(c)
  {
    match d
    case NoTypo =>
      ErasePlain(line, Utf8(c));
    case Typo(picks) =>
      TypoBytesShape(c, picks);
      EraseAppend(line, TypoBytes(c, picks) + Dels(|picks|), Utf8(c));
      EraseBurst(line, TypoBytes(c, picks));
      ErasePlain(line, Utf8(c));
  }

  /** Read with 0x7F as delete-previous, the bytes written for a command
      whose text holds no U+007F reduce to the command itself. */
  lemma {:induction false} KeysErase(line: seq<byte>, command: string, typos: seq<TypoDecision>)
    requires |typos| == |command|
    requires forall k :: 0 <= k < |command| ==> command[k] as int != 0x7F
    ensures Erase(line, Keys(command, typos)) == line + Utf8String(command)
    decreases |command|
  {
    if command != [] {
      var n := |command| - 1;
      var c := command[n];
      var prefix := Keys(command[..n], typos[..n]);
      assert Keys(command, typos) == prefix + CharKeys(c, typos[n]);
      KeysErase(line, command[..n], typos[..n]);
      EraseAppend(line, prefix, CharKeys(c, typos[n]));
      CharKeysErase(line + Utf8String(command[..n]), c, typos[n]);
      assert Utf8String(command) == Utf8String(command[..n]) + Utf8(c);
      Text.AppendAssoc(line, Utf8String(command[..n]), Utf8(c));
    }
  }

  /** The whole stream `type_command` writes, newline included, reduces to
      the command followed by one newline. */
  lemma {:induction false} TypedStreamReduces(command: string, typos: seq<TypoDecision>)
    requires |typos| == |command|
    requires forall k :: 0 <= k < |command| ==> command[k] as int != 0x7F
    ensures Erase([], Keys(command, typos) + [Newline]) == Utf8String(command) + [Newline]
  {
    var keys := Keys(command, typos);
    KeysErase([], command, typos);
    assert [] + Utf8String(command) == Utf8String(command);
    EraseAppend([], keys, [Newline]);
    ErasePlain(Utf8String(command), [Newline]);
  }

  // ---------------------------------------------------------------- prompt wait

  /** The prompt regex, searched over the buffer: the end of its first match. */
  type PromptSearch = seq<byte> -> Option<nat>

  /** A match ends inside the searched bytes. */
  ghost predicate ValidSearch(search: PromptSearch) {
    forall b :: search(b).Some? ==> search(b).value <= |b|
  }

  datatype ShellError = PromptTimeout | StartupTimeout | OsError

  /** The chunks the reader appends, in order, as one byte string. */
  function Flatten(chunks: seq<seq<byte>>): seq<byte>
    decreases |chunks|
  {
    if chunks == [] then [] else Flatten(chunks[..|chunks| - 1]) + chunks[|chunks| - 1]
  }

  /** The buffer after `j` polls, when `arrivals[i]` is what the reader
      appended during the pause before poll `i + 1`. */
  function Observed(b0: seq<byte>, arrivals: seq<seq<byte>>, j: nat): seq<byte> {
    b0 + Flatten(arrivals[..if j <= |arrivals| then j else |arrivals|])
  }

  /** One poll adds the chunk that arrived before it, if any. */
  lemma ObservedStep(b0: seq<byte>, arrivals: seq<seq<byte>>, j: nat)
    ensures Observed(b0, arrivals, j + 1) == Observed(b0, arrivals, j) + (if j < |arrivals| then arrivals[j] else [])
  {
    if j < |arrivals| {
      assert arrivals[..j + 1][..j] == arrivals[..j];
    }
  }

  /** `last_buffer_size` after `j` polls: 0 before the first poll, then the
      size the last poll saw. */
  function Tracked(b0: seq<byte>, arrivals: seq<seq<byte>>, j: nat): nat {
    if j == 0 then 0 else |Observed(b0, arrivals, j)|
  }

  /** `last_change` after `j` polls, as a poll count: the last poll that saw
      the buffer's size differ from the size recorded before it. */
  function LastChange(b0: seq<byte>, arrivals: seq<seq<byte>>, j: nat): (c: nat)
    ensures c <= j
  {
    if j == 0 then 0
    else if |Observed(b0, arrivals, j)| != Tracked(b0, arrivals, j - 1) then j
    else LastChange(b0, arrivals, j - 1)
  }

  /** Once the reader has nothing more to append, the buffer stops changing. */
  lemma {:induction false} LastChangeBound(b0: seq<byte>, arrivals: seq<seq<byte>>, j: nat)
    ensures LastChange(b0, arrivals, j) <= |arrivals| + 1
    decreases j
  {
    if j > |arrivals| + 1 {
      assert Observed(b0, arrivals, j) == Observed(b0, arrivals, j - 1);
      LastChangeBound(b0, arrivals, j - 1);
    }
  }

  /** How a wait ends: the prompt matched at poll `poll`, ending at `end`,
      or the buffer stayed unchanged for the whole timeout. */
  datatype WaitResult = Matched(poll: nat, end: nat) | TimedOut(poll: nat)

  /** The polling loop of `_wait_for_prompt`, from poll `j` on: the loop
      condition is checked, the loop sleeps, searches the buffer and
      records a change of its size. */
  function WaitFrom(search: PromptSearch, b0: seq<byte>, arrivals: seq<seq<byte>>, timeout: int, j: nat): WaitResult
    decreases if j <= |arrivals| + 1 + timeout then |arrivals| + 1 + timeout - j else 0
  {
    if PollIntervalMs * (j - LastChange(b0, arrivals, j)) >= timeout then TimedOut(j)
    else match search(Observed(b0, arrivals, j + 1))
      case Some(e) => Matched(j + 1, e)
      case None =>
        LastChangeBound(b0, arrivals, j);
        WaitFrom(search, b0, arrivals, timeout, j + 1)
  }

  /** A match is the first one: no earlier poll matched, and the timeout had
      not expired at any poll before it. */
  lemma {:induction false} WaitMatched(search: PromptSearch, b0: seq<byte>, arrivals: seq<seq<byte>>, timeout: int, j: nat)
    requires WaitFrom(search, b0, arrivals, timeout, j).Matched?
    ensures var w := WaitFrom(search, b0, arrivals, timeout, j);
      j < w.poll && search(Observed(b0, arrivals, w.poll)) == Some(w.end) &&
      (forall i :: j < i < w.poll ==> search(Observed(b0, arrivals, i)) == None) &&
      (forall i :: j <= i < w.poll ==> PollIntervalMs * (i - LastChange(b0, arrivals, i)) < timeout)
    decreases if j <= |arrivals| + 1 + timeout then |arrivals| + 1 + timeout - j else 0
  {
    var w := WaitFrom(search, b0, arrivals, timeout, j);
    assert PollIntervalMs * (j - LastChange(b0, arrivals, j)) < timeout;
    if search(Observed(b0, arrivals, j + 1)).None? {
      LastChangeBound(b0, arrivals, j);
      assert w == WaitFrom(search, b0, arrivals, timeout, j + 1);
      WaitMatched(search, b0, arrivals, timeout, j + 1);
      forall i | j < i < w.poll
        ensures search(Observed(b0, arrivals, i)) == None
      {
        if i == j + 1 {
        }
      }
      forall i | j <= i < w.poll
        ensures PollIntervalMs * (i - LastChange(b0, arrivals, i)) < timeout
      {
        if i == j {
        }
      }
    } else {
      assert w.poll == j + 1;
    }
  }

  /** A timeout comes only when no poll matched and the buffer had not
      changed for `timeout` milliseconds. */
  lemma {:induction false} WaitTimedOut(search: PromptSearch, b0: seq<byte>, arrivals: seq<seq<byte>>, timeout: int, j: nat)
    requires WaitFrom(search, b0, arrivals, timeout, j).TimedOut?
    ensures var w := WaitFrom(search, b0, arrivals, timeout, j);
      j <= w.poll &&
      PollIntervalMs * (w.poll - LastChange(b0, arrivals, w.poll)) >= timeout &&
      (forall i :: j < i <= w.poll ==> search(Observed(b0, arrivals, i)) == None) &&
      (forall i :: j <= i < w.poll ==> PollIntervalMs * (i - LastChange(b0, arrivals, i)) < timeout)
    decreases if j <= |arrivals| + 1 + timeout then |arrivals| + 1 + timeout - j else 0
  {
    var w := WaitFrom(search, b0, arrivals, timeout, j);
    if PollIntervalMs * (j - LastChange(b0, arrivals, j)) < timeout {
      LastChangeBound(b0, arrivals, j);
      assert search(Observed(b0, arrivals, j + 1)).None?;
      assert w == WaitFrom(search, b0, arrivals, timeout, j + 1);
      WaitTimedOut(search, b0, arrivals, timeout, j + 1);
      forall i | j < i <= w.poll
        ensures search(Observed(b0, arrivals, i)) == None
      {
        if i == j + 1 {
        }
      }
      forall i | j <= i < w.poll
        ensures PollIntervalMs * (i - LastChange(b0, arrivals, i)) < timeout
      {
        if i == j {
        }
      }
    } else {
      assert w.poll == j;
    }
  }

  /** `last_change` is the last change: every poll that saw the size change
      comes no later than it. */
  lemma {:induction false} LastChangeIsLast(b0: seq<byte>, arrivals: seq<seq<byte>>, k: nat, i: nat)
    requires 1 <= i <= k
    requires |Observed(b0, arrivals, i)| != Tracked(b0, arrivals, i - 1)
    ensures i <= LastChange(b0, arrivals, k)
    decreases k
  {
    if i < k && |Observed(b0, arrivals, k)| == Tracked(b0, arrivals, k - 1) {
      LastChangeIsLast(b0, arrivals, k - 1, i);
    }
  }

  /** When the wait times out, every growth of the buffer it saw lies at
      least `timeout` milliseconds before the end, and no poll matched. */
  lemma WaitTimeoutIsQuiet(search: PromptSearch, b0: seq<byte>, arrivals: seq<seq<byte>>, timeout: int)
    requires WaitFrom(search, b0, arrivals, timeout, 0).TimedOut?
    ensures var k := WaitFrom(search, b0, arrivals, timeout, 0).poll;
      (forall i :: 1 <= i <= k && |Observed(b0, arrivals, i)| != Tracked(b0, arrivals, i - 1) ==>
        PollIntervalMs * (k - i) >= timeout) &&
      (forall i :: 1 <= i <= k ==> search(Observed(b0, arrivals, i)) == None)
  {
    var k := WaitFrom(search, b0, arrivals, timeout, 0).poll;
    WaitTimedOut(search, b0, arrivals, timeout, 0);
    forall i | 1 <= i <= k && |Observed(b0, arrivals, i)| != Tracked(b0, arrivals, i - 1)
      ensures PollIntervalMs * (k - i) >= timeout
    {
      LastChangeIsLast(b0, arrivals, k, i);
    }
  }

  /** The number of 50 ms polls a timeout spans, rounded up: a wait with no
      change of the buffer times out at the first poll reaching it. */
  function TimeoutPolls(timeout: int): (n: nat)
    ensures forall d: nat :: PollIntervalMs * d < timeout ==> d < n
  {
    if timeout <= 0 then 0 else (timeout + PollIntervalMs - 1) / PollIntervalMs
  }

  /** The wait ends within the polls that bring data plus the polls the
      timeout spans. */
  lemma {:induction false} WaitEnds(search: PromptSearch, b0: seq<byte>, arrivals: seq<seq<byte>>, timeout: int, j: nat)
    requires j <= |arrivals| + 1 + TimeoutPolls(timeout)
    ensures WaitFrom(search, b0, arrivals, timeout, j).poll <= |arrivals| + 1 + TimeoutPolls(timeout)
    decreases |arrivals| + 1 + TimeoutPolls(timeout) - j
  {
    LastChangeBound(b0, arrivals, j);
    if PollIntervalMs * (j - LastChange(b0, arrivals, j)) < timeout && search(Observed(b0, arrivals, j + 1)).None? {
      WaitEnds(search, b0, arrivals, timeout, j + 1);
    }
  }

  /** The whole of `_wait_for_prompt`: the text up to the end of the match,
      and what stays in the buffer (bytes after the match, and those the
      reader appended during the post-prompt delay, `late`). */
  function Await(search: PromptSearch, b0: seq<byte>, arrivals: seq<seq<byte>>, timeout: int, late: seq<byte>): (Result<seq<byte>, ShellError>, seq<byte>)
    requires ValidSearch(search)
  {
    match WaitFrom(search, b0, arrivals, timeout, 0)
    case TimedOut(k) => (Err(PromptTimeout), Observed(b0, arrivals, k))
    case Matched(k, e) =>
      WaitMatched(search, b0, arrivals, timeout, 0);
      var b := Observed(b0, arrivals, k) + late;
      (Ok(b[..e]), b[e..])
  }

  /** A successful wait returns the buffer up to the end of the first match,
      and keeps every other byte, in order: nothing is lost or duplicated. */
  lemma AwaitSplitsBuffer(search: PromptSearch, b0: seq<byte>, arrivals: seq<seq<byte>>, timeout: int, late: seq<byte>)
    requires ValidSearch(search)
    requires WaitFrom(search, b0, arrivals, timeout, 0).Matched?
    ensures var w := WaitFrom(search, b0, arrivals, timeout, 0);
      var r := Await(search, b0, arrivals, timeout, late);
      r.0.Ok? && w.end <= |Observed(b0, arrivals, w.poll)| &&
      search(Observed(b0, arrivals, w.poll)) == Some(|r.0.value|) &&
      r.0.value == Observed(b0, arrivals, w.poll)[..w.end] &&
      r.0.value + r.1 == Observed(b0, arrivals, w.poll) + late
  {
    var w := WaitFrom(search, b0, arrivals, timeout, 0);
    WaitMatched(search, b0, arrivals, timeout, 0);
    var b := Observed(b0, arrivals, w.poll);
    assert (b + late)[..w.end] == b[..w.end];
    assert (b + late)[..w.end] + (b + late)[w.end..] == b + late;
  }

  /** A timeout of zero or less expires before the first poll. */
  lemma NoTimeLeft(search: PromptSearch, b0: seq<byte>, arrivals: seq<seq<byte>>, timeout: int, late: seq<byte>)
    requires ValidSearch(search)
    requires timeout <= 0
    ensures Await(search, b0, arrivals, timeout, late) == (Err(PromptTimeout), b0)
  {
    assert Observed(b0, arrivals, 0) == b0;
  }

  // ---------------------------------------------------------------- reader

  /** One round of the reader thread: `select` found data (`os.read`
      returned `data`, empty at end of stream), `select` timed out after
      0.1 s, or `os.read` raised `OSError`. */
  datatype Poll = Ready(data: seq<byte>) | Idle | ReadFailed

  /** Why the reader thread returned. */
  datatype ReaderExit = Stopped | EndOfStream | ReadError | NoMorePolls

  /** A round after which the reader goes on. */
  predicate Continues(p: Poll) {
    p == Idle || (p.Ready? && p.data != [])
  }

  /** The bytes the given rounds delivered, in order. */
  function Delivered(polls: seq<Poll>): seq<byte>
    decreases |polls|
  {
    if polls == [] then []
    else Delivered(polls[..|polls| - 1]) + (if polls[|polls| - 1].Ready? then polls[|polls| - 1].data else [])
  }

  // ---------------------------------------------------------------- session

  /** A bash session on a pseudo-terminal, driven by simulated keystrokes. */
  class HumanTyperShell {
    /** `_buffer`: the shell's output since the buffer was last cut. */
    var buffer: seq<byte>
    /** Every byte written to the master side of the pty, in order. */
    var written: seq<byte>
    /** `_stop`: tells the reader thread to return. */
    var stop: bool
    /** `_suppress_output`: set while a command is being typed. */
    var suppressOutput: bool
    /** Whether `master_fd` is still open. */
    var fdOpen: bool
    /** The compiled `prompt_regex`. */
    const promptSearch: PromptSearch
    /** `prompt_timeout`, in milliseconds. */
    const promptTimeout: int

    /** The state right after `pty.fork()`, before the startup wait. */
    constructor (promptSearch: PromptSearch, promptTimeout: int)
      ensures this.promptSearch == promptSearch && this.promptTimeout == promptTimeout
      ensures buffer == [] && written == [] && !stop && !suppressOutput && fdOpen
    {
      this.promptSearch := promptSearch;
      this.promptTimeout := promptTimeout;
      buffer := [];
      written := [];
      stop := false;
      suppressOutput := false;
      fdOpen := true;
    }

    /** The reader thread adds `data` to the end of the buffer. */
    method Append(data: seq<byte>)
      modifies this`buffer
      ensures buffer == old(buffer) + data
    {
      buffer := buffer + data;
    }

    /** `os.write` on the master side. */
    method Write(data: seq<byte>)
      requires fdOpen
      modifies this`written
      ensures written == old(written) + data
    {
      written := written + data;
    }

    /** `_read_output`: while not stopped, append what each read returns;
        return at end of stream or on a read error. The stop flag is the one
        this call sees. */
    method ReadOutput(polls: seq<Poll>) returns (consumed: nat, exit: ReaderExit)
      modifies this`buffer
      ensures consumed <= |polls|
      ensures buffer == old(buffer) + Delivered(polls[..consumed])
      ensures stop ==> consumed == 0 && exit == Stopped
      ensures !stop ==> match exit
        case Stopped => false
        case NoMorePolls => consumed == |polls| && forall k :: 0 <= k < consumed ==> Continues(polls[k])
        case EndOfStream =>
          consumed >= 1 && polls[consumed - 1] == Ready([]) && forall k :: 0 <= k < consumed - 1 ==> Continues(polls[k])
        case ReadError =>
          consumed >= 1 && polls[consumed - 1] == ReadFailed && forall k :: 0 <= k < consumed - 1 ==> Continues(polls[k])
    {
      consumed := 0;
      while !stop && consumed < |polls|
        invariant consumed <= |polls|
        invariant stop ==> consumed == 0
        invariant buffer == old(buffer) + Delivered(polls[..consumed])
        invariant forall k :: 0 <= k < consumed ==> Continues(polls[k])
      {
        var p := polls[consumed];
        assert polls[..consumed + 1][..consumed] == polls[..consumed];
        consumed := consumed + 1;
        match p
        case Idle =>
        case ReadFailed =>
          exit := ReadError;
          return;
        case Ready(data) =>
          if data == [] {
            exit := EndOfStream;
            return;
          }
          Append(data);
      }
      exit := if stop then Stopped else NoMorePolls;
    }

    /** The polling loop of `_wait_for_prompt`: how it ends, with the buffer
        as the last poll saw it. */
    method PollForPrompt(timeout: int, arrivals: seq<seq<byte>>) returns (w: WaitResult)
      modifies this`buffer
      ensures w == WaitFrom(promptSearch, old(buffer), arrivals, timeout, 0)
      ensures buffer == Observed(old(buffer), arrivals, w.poll)
    {
      var b0 := buffer;
      var polls: nat := 0;
      var lastChange: nat := 0;
      var lastSize := 0;
      assert buffer == Observed(b0, arrivals, 0);
      while PollIntervalMs * (polls - lastChange) < timeout
        invariant lastChange <= polls
        invariant buffer == Observed(b0, arrivals, polls)
        invariant lastChange == LastChange(b0, arrivals, polls)
        invariant lastSize == Tracked(b0, arrivals, polls)
        invariant WaitFrom(promptSearch, b0, arrivals, timeout, polls) == WaitFrom(promptSearch, b0, arrivals, timeout, 0)
        decreases if polls <= |arrivals| + 1 + timeout then |arrivals| + 1 + timeout - polls else 0
      {
        LastChangeBound(b0, arrivals, polls);
        ObservedStep(b0, arrivals, polls);
        // time.sleep(0.05): the reader appends what arrived meanwhile.
        if polls < |arrivals| {
          Append(arrivals[polls]);
        }
        polls := polls + 1;
        var m := promptSearch(buffer);
        if m.Some? {
          return Matched(polls, m.value);
        }
        if |buffer| != lastSize {
          lastChange := polls;
          lastSize := |buffer|;
        }
      }
      w := TimedOut(polls);
    }

    /** `_wait_for_prompt(timeout)`: poll every 50 ms until the prompt
        matches or the buffer has not changed for `timeout` ms; after a
        match, wait the post-prompt delay and cut the buffer at the end of
        the match. `arrivals[i]` is what the reader appends before poll
        `i + 1`, `late` what it appends during the post-prompt delay. */
    method WaitForPrompt(timeout: int, arrivals: seq<seq<byte>>, late: seq<byte>) returns (r: Result<seq<byte>, ShellError>)
      requires ValidSearch(promptSearch)
      modifies this`buffer
      ensures (r, buffer) == Await(promptSearch, old(buffer), arrivals, timeout, late)
    {
      var w := PollForPrompt(timeout, arrivals);
      if w.TimedOut? {
        r := Err(PromptTimeout);
        return;
      }
      WaitMatched(promptSearch, old(buffer), arrivals, timeout, 0);
      // time.sleep(post_prompt_delay)
      Append(late);
      r := Ok(buffer[..w.end]);
      buffer := buffer[w.end..];
    }

    /** The typo burst: one wrong character per pick. */
    method TypeTypos(c: char, picks: seq<nat>)
      requires fdOpen && suppressOutput
      modifies this`written
      ensures written == old(written) + TypoBytes(c, picks)
    {
      for k := 0 to |picks|
        invariant written == old(written) + TypoBytes(c, picks[..k])
      {
        assert picks[..k + 1][..k] == picks[..k];
        Write(Utf8(TypoChar(c, picks[k])));
      }
      assert picks[..|picks|] == picks;
    }

    /** One backspace per typo. */
    method TypeDels(n: nat)
      requires fdOpen && suppressOutput
      modifies this`written
      ensures written == old(written) + Dels(n)
    {
      for k := 0 to n
        invariant written == old(written) + Dels(k)
      {
        assert Dels(k + 1) == Dels(k) + [Del];
        Write([Del]);
      }
    }

    /** The keystrokes for one character of a command. */
    method TypeChar(c: char, d: TypoDecision)
      requires fdOpen && suppressOutput
      modifies this`written
      ensures written == old(written) + CharKeys(c, d)
    {
      if d.Typo? {
        TypeTypos(c, d.picks);
        TypeDels(|d.picks|);
      }
      Write(Utf8(c));
    }

    /** The keystrokes for every character of a command, in order. */
    method TypeKeys(command: string, typos: seq<TypoDecision>)
      requires fdOpen && suppressOutput
      requires |typos| == |command|
      modifies this`written
      ensures written == old(written) + Keys(command, typos)
    {
      var i := 0;
      while i < |command|
        invariant 0 <= i <= |command|
        invariant written == old(written) + Keys(command[..i], typos[..i])
      {
        KeysStep(command, typos, i);
        TypeChar(command[i], typos[i]);
        Text.AppendAssoc(old(written), Keys(command[..i], typos[..i]), CharKeys(command[i], typos[i]));
        i := i + 1;
      }
      assert command[..i] == command && typos[..i] == typos;
    }

    /** `type_command`: clear the buffer, type every character (with the
        typo bursts `typos` decides), press Enter, then wait for the prompt
        for `promptTimeout` ms. `echo` is what the reader appends while the
        keys are typed. `suppress_output` is set before the first key and
        cleared after the newline: the typing methods require it. On a
        closed pty the first write raises `OSError`. */
    method TypeCommand(command: string, typos: seq<TypoDecision>, echo: seq<byte>, arrivals: seq<seq<byte>>, late: seq<byte>)
      returns (r: Result<seq<byte>, ShellError>)
      requires ValidSearch(promptSearch)
      requires ValidTypos(typos, |command|)
      modifies this`buffer, this`written, this`suppressOutput
      ensures !fdOpen ==> r == Err(OsError) && buffer == [] && suppressOutput && written == old(written)
      ensures fdOpen ==> written == old(written) + Keys(command, typos) + [Newline] && !suppressOutput
      ensures fdOpen ==> (r, buffer) == Await(promptSearch, echo, arrivals, promptTimeout, late)
    {
      buffer := [];
      suppressOutput := true;
      if !fdOpen {
        r := Err(OsError);
        return;
      }
      TypeKeys(command, typos);
      Write([Newline]);
      Append(echo);
      assert buffer == echo;
      suppressOutput := false;
      r := WaitForPrompt(promptTimeout, arrivals, late);
    }

    /** `close`: stop the reader, type `exit` if the pty is still open, and
        close it; closing an already closed descriptor raises `OSError`. */
    method Close() returns (error: Option<ShellError>)
      modifies this`stop, this`written, this`fdOpen
      ensures stop && !fdOpen
      ensures old(fdOpen) ==> written == old(written) + ExitBytes && error == None
      ensures !old(fdOpen) ==> written == old(written) && error == Some(OsError)
    {
      stop := true;
      if fdOpen {
        Write(ExitBytes);
        error := None;
      } else {
        error := Some(OsError);
      }
      fdOpen := false;
    }
  }

  /** `HumanTyperShell(...)`: start the shell and wait for its first prompt
      with the default wait of 10 s; a timeout there becomes a
      `RuntimeError`. */
  method Open(promptSearch: PromptSearch, promptTimeout: int, arrivals: seq<seq<byte>>, late: seq<byte>)
    returns (r: Result<HumanTyperShell, ShellError>)
    requires ValidSearch(promptSearch)
    ensures r.Err? <==> WaitFrom(promptSearch, [], arrivals, DefaultWaitTimeoutMs, 0).TimedOut?
    ensures r.Err? ==> r.error == StartupTimeout
    ensures r.Ok? ==> fresh(r.value) && r.value.promptSearch == promptSearch && r.value.promptTimeout == promptTimeout
    ensures r.Ok? ==> r.value.buffer == Await(promptSearch, [], arrivals, DefaultWaitTimeoutMs, late).1
    ensures r.Ok? ==> r.value.written == [] && r.value.fdOpen && !r.value.stop && !r.value.suppressOutput
  {
    var shell := new HumanTyperShell(promptSearch, promptTimeout);
    var waited := shell.WaitForPrompt(DefaultWaitTimeoutMs, arrivals, late);
    if waited.Err? {
      r := Err(StartupTimeout);
    } else {
      r := Ok(shell);
    }
  }
}
