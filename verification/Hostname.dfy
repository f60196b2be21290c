/**
  The host name loop of `src/daap_init.c` (`daap_gethostname`, lines 50-133): offer a buffer
  to the system, and double the buffer for as long as the name may not have fitted.
 */
module Hostname {
  import opened CStrings
  import opened Options

  /** `LOCAL_MAXHOSTNAMELEN` and `NUM_TRIES_FOR_NULL_HOSTNAME`. */
  const FIRST_SIZE := 257
  const TRIES := 8

  datatype Status = Success | OutOfMemory | Error | ErrorInErrno

  datatype Errno = EINVAL | ENAMETOOLONG | Other

  /** What a system does about a name that does not fit. */
  datatype Manner =
    | Truncates                            // fills the buffer without a terminator and reports success
    | Refuses(errno: Errno, junk: string)  // fails, with anything in the buffer

  /** One call of `gethostname` (None: it fails whatever the name is) and the `realloc` behind it. */
  datatype Try = Try(broken: bool, manner: Manner, memory: bool)

  /** The name and its terminator fit in a buffer of `size` bytes of which `gethostname` may use all but one. */
  predicate Fits(name: string, size: nat) {
    |name| + 2 <= size
  }

  function Size(k: nat): (n: nat)
    ensures n >= FIRST_SIZE
  {
    if k == 0 then FIRST_SIZE else 2 * Size(k - 1)
  }

  /** `gethostname(buf, n)`. */
  method GetHostName(buf: array<char>, n: nat, name: string, t: Try) returns (ok: bool, errno: Errno)
    requires n < buf.Length && NUL !in name
    modifies buf
    ensures !ok && errno == Other <==> t.broken || (n <= |name| && t.manner.Refuses? && t.manner.errno == Other)
    ensures ok <==> !t.broken && (|name| < n || t.manner.Truncates?)
    ensures ok ==> forall i | 0 <= i < |name| && i < n :: buf[i] == name[i]
    ensures ok && |name| < n ==> buf[|name|] == NUL
  {
    var text := if t.broken then "" else if |name| < n then name + [NUL]
                else if t.manner.Truncates? then name else t.manner.junk;
    for i := 0 to if |text| < n then |text| else n
      invariant forall j | 0 <= j < i :: buf[j] == text[j]
    {
      buf[i] := text[i];
    }
    ok := !t.broken && (|name| < n || t.manner.Truncates?);
    errno := if t.broken || t.manner.Truncates? then Other else t.manner.errno;
  }

  /** The call fails with an error that is not about the size of the buffer. */
  predicate Hopeless(name: string, size: nat, t: Try) {
    t.broken || (!Fits(name, size) && t.manner.Refuses? && t.manner.errno == Other)
  }

  /** How the loop ends when it starts with try `k`. */
  function Outcome(name: string, tries: seq<Try>, k: nat): Status
    requires k <= |tries| == TRIES
    decreases TRIES - k
  {
    if k == TRIES then Error
    else if Hopeless(name, Size(k), tries[k]) then ErrorInErrno
    else if name != "" && Fits(name, Size(k)) then Success
    else if !tries[k].memory then OutOfMemory
    else Outcome(name, tries, k + 1)
  }

  /** What `strlen` finds behind a call that reported success. */
  function Visible(name: string, size: nat): (s: string)
    requires size > 0
    ensures Fits(name, size) ==> s == name
    ensures !Fits(name, size) ==> |s| == size - 1
  {
    if |name| < size - 1 then name else name[..size - 1]
  }

  lemma VisibleAt(b: seq<char>, name: string)
    requires |b| > 0 && NUL !in name && b[|b| - 1] == NUL
    requires forall i | 0 <= i < |name| && i < |b| - 1 :: b[i] == name[i]
    requires |name| < |b| - 1 ==> b[|name|] == NUL
    ensures StringAt(b, 0, Visible(name, |b|))
  {
  }

  /** Try `k`: ask, terminate the buffer, and judge what came. None asks for a larger buffer. */
  method Ask(buf: array<char>, name: string, t: Try) returns (end: Option<Status>)
    requires buf.Length > 1 && NUL !in name
    modifies buf
    ensures end == (if Hopeless(name, buf.Length, t) then Some(ErrorInErrno)
                    else if name != "" && Fits(name, buf.Length) then Some(Success) else None)
    ensures end == Some(Success) ==> StringAt(buf[..], 0, name)
  {
    var ok, errno := GetHostName(buf, buf.Length - 1, name, t);
    buf[buf.Length - 1] := NUL;
    end := None;
    if ok {
      VisibleAt(buf[..], name);
      var count := Strlen(buf, 0, Visible(name, buf.Length));
      if count > 0 && count < buf.Length - 1 {
        end := Some(Success);
      } else if !(count == 0 || count == buf.Length - 1) {
        assert false; // the terminator in the last byte leaves no other length
      }
    } else if !(errno == EINVAL || errno == ENAMETOOLONG) {
      end := Some(ErrorInErrno);
    }
  }

  /** `calloc` and `realloc`: a longer buffer that starts with what was there. */
  method Enlarge(buf: array<char>, length: nat) returns (more: array<char>)
    requires buf.Length <= length
    ensures fresh(more) && more.Length == length && more[..buf.Length] == buf[..]
  {
    more := new char[length](i requires 0 <= i < length reads buf => if i < buf.Length then buf[i] else NUL);
  }

  /** What try `k` says about the end of the loop. */
  lemma TryStep(name: string, tries: seq<Try>, k: nat, end: Option<Status>)
    requires k < |tries| == TRIES
    requires end == (if Hopeless(name, Size(k), tries[k]) then Some(ErrorInErrno)
                     else if name != "" && Fits(name, Size(k)) then Some(Success) else None)
    ensures end.Some? ==> Outcome(name, tries, k) == end.value
    ensures end == Some(Success) ==> Fits(name, Size(k))
    ensures end.None? ==> Outcome(name, tries, k) == (if tries[k].memory then Outcome(name, tries, k + 1) else OutOfMemory)
    ensures end.None? && name != "" ==> !Fits(name, Size(k))
    ensures Size(k + 1) == 2 * Size(k)
  {
  }

  /** The sizes offered are those of the tries, less the last byte. */
  predicate Offers(asked: seq<nat>) {
    forall k | 0 <= k < |asked| :: asked[k] == Size(k) - 1
  }

  lemma {:induction false} OffersStep(asked: seq<nat>, size: nat)
    requires Offers(asked) && size == Size(|asked|) - 1
    ensures Offers(asked + [size])
  {
    hide Size;
  }

  /** `daap_gethostname`; `memory` says whether the first allocation succeeds, and `asked` lists the sizes offered. */
  method LocalHostName(name: string, memory: bool, tries: seq<Try>)
    returns (status: Status, buf: array<char>, asked: seq<nat>)
    requires |tries| == TRIES && NUL !in name
    ensures status == if memory then Outcome(name, tries, 0) else OutOfMemory
    ensures status == Success ==> StringAt(buf[..], 0, name)
    ensures |asked| <= TRIES && Offers(asked)
    ensures status == Success ==>
      && |asked| > 0 && Fits(name, Size(|asked| - 1))
      && forall k | 0 <= k < |asked| - 1 :: !Fits(name, Size(k))
  {
    hide Hopeless, Fits, StringAt;
    assert Offers([]);
    hide Offers;
    assert Size(0) == FIRST_SIZE && Outcome(name, tries, TRIES) == Error;
    asked := [];
    buf := new char[FIRST_SIZE](_ => NUL);
    if !memory {
      return OutOfMemory, buf, asked;
    }
    var length := FIRST_SIZE;
    for k := 0 to TRIES
      invariant length == Size(k) == buf.Length && fresh(buf)
      invariant |asked| == k && Offers(asked)
      invariant forall j | 0 <= j < k && name != "" :: !Fits(name, Size(j))
      invariant Outcome(name, tries, 0) == Outcome(name, tries, k)
    {
      hide Outcome, Size;
      var end := Ask(buf, name, tries[k]);
      TryStep(name, tries, k, end);
      OffersStep(asked, length - 1);
      asked := asked + [length - 1];
      if end.Some? {
        return end.value, buf, asked;
      }
      length := 2 * length;
      if !tries[k].memory {
        return OutOfMemory, buf, asked;
      }
      buf := Enlarge(buf, length);
    }
    status := Error;
  }

  /** The call answers as the manual page says, and there is memory for the next one. */
  predicate Standard(t: Try) {
    !t.broken && t.memory && (t.manner.Refuses? ==> t.manner.errno != Other)
  }

  lemma {:induction false} SizesGrow(j: nat, k: nat)
    requires j <= k
    ensures Size(j) <= Size(k)
  {
    if j < k {
      SizesGrow(j, k - 1);
    }
  }

  /** Try `k` is reached and finds the name. */
  predicate FoundAt(name: string, tries: seq<Try>, from: nat, k: nat)
    requires k < |tries|
  {
    && name != "" && Fits(name, Size(k))
    && (forall j | from <= j <= k :: !Hopeless(name, Size(j), tries[j]))
    && forall j | from <= j < k :: !Fits(name, Size(j)) && tries[j].memory
  }

  /** The loop succeeds if and only if the name is found at a size it fits, reached without any other failure. */
  lemma {:induction false} SucceedsIff(name: string, tries: seq<Try>, from: nat)
    requires from <= |tries| == TRIES
    ensures Outcome(name, tries, from) == Success <==> exists k | from <= k < TRIES :: FoundAt(name, tries, from, k)
    decreases TRIES - from
  {
    if from < TRIES {
      var next := from + 1;
      SucceedsIff(name, tries, next);
      if k :| next <= k < TRIES && FoundAt(name, tries, from, k) {
        assert FoundAt(name, tries, next, k);
      }
      if name != "" && Fits(name, Size(from)) && !Hopeless(name, Size(from), tries[from]) {
        assert FoundAt(name, tries, from, from);
      } else if k :| next <= k < TRIES && FoundAt(name, tries, next, k) {
        assert Outcome(name, tries, from) == Success ==> FoundAt(name, tries, from, k);
      }
    }
  }

  /**
    A system that answers as the manual page says, and memory enough: names of 1 to
    257 * 2^7 - 2 characters are found, the empty name and longer ones are not.
   */
  lemma {:induction false} LimitIs(name: string, tries: seq<Try>, from: nat)
    requires from <= |tries| == TRIES
    requires forall j | from <= j < TRIES :: Standard(tries[j])
    ensures Size(TRIES - 1) == 32896
    ensures Outcome(name, tries, from) == if from < TRIES && 0 < |name| <= 257 * 128 - 2 then Success else Error
    decreases TRIES - from
  {
    assert Size(2) == 1028 && Size(4) == 4112 && Size(6) == 16448 && Size(7) == 32896;
    if from < TRIES {
      LimitIs(name, tries, from + 1);
      SizesGrow(from, 7);
    }
  }
}
