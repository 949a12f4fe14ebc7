/** How the callers of isystem() and rsystem() get the `$?` of the shell, in the form of a wait status. */
module ShellStatus {

  /** An int of 32 bits. */
  function Wrapped(n: int): int {
    (n + 0x8000_0000) % 0x1_0000_0000 - 0x8000_0000
  }

  /** Bit 7 is taken for a signal, otherwise the number is an exit code. */
  function Encoded(n: int): int {
    if n % 256 >= 128 then n else Wrapped(256 * n)
  }

  // The status as <sys/wait.h> reads it.

  predicate Exited(wait: int) {
    wait % 128 == 0
  }

  function ExitStatus(wait: int): int {
    wait / 256 % 256
  }

  predicate Signaled(wait: int) {
    1 <= wait % 128 <= 126
  }

  function TermSig(wait: int): int {
    wait % 128
  }

  /** What a caller makes of the value returned for the number `n` of the shell; -1 stands for no number. An exit
      code below 128 is an exit with this code; above 128 it is a death by the signal that the shell tells of;
      128 itself is an exit with the code 0, and 255 is nothing that a caller knows of. */
  predicate Means(wait: int, n: int) {
    var code := n % 256;
    if n == -1 then wait == -1
    else if code < 128 then Exited(wait) && ExitStatus(wait) == code && !Signaled(wait)
    else if code == 128 then Exited(wait) && ExitStatus(wait) == n / 256 % 256 && !Signaled(wait)
    else if code < 255 then Signaled(wait) && TermSig(wait) == code - 128 && !Exited(wait)
    else !Exited(wait) && !Signaled(wait)
  }

  lemma ByteOf(a: int, r: int)
    requires 0 <= r < 256
    ensures (256 * a + r) % 256 == r
  {
  }

  lemma InPlace(m: int)
    ensures 256 * m % 128 == 0 && 256 * m / 256 == m
  {
  }

  /** An exit code in its place, 8 bits higher. */
  lemma Shifted(n: int)
    ensures Wrapped(256 * n) % 128 == 0 && Wrapped(256 * n) / 256 % 256 == n % 256
  {
    var q := (256 * n + 0x8000_0000) / 0x1_0000_0000;
    var m := n - q * 0x100_0000;
    assert Wrapped(256 * n) == 256 * m;
    hide Wrapped;
    InPlace(m);
    assert m == 256 * (n / 256 - q * 0x1_0000) + n % 256;
    ByteOf(n / 256 - q * 0x1_0000, n % 256);
  }

  lemma EncodedMeans(n: int)
    ensures Means(Encoded(n), n)
  {
    Shifted(n);
    hide Wrapped;
  }

  /** An exit code comes back as the exit status if and only if its bit 7 is clear. */
  lemma EncodedExact(code: int)
    requires 0 <= code <= 255
    ensures Exited(Encoded(code)) && ExitStatus(Encoded(code)) == code <==> code < 128
  {
  }
}
