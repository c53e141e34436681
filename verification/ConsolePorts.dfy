/** The emulator's console ports: the order in which a workflow tries them, and the search for a free pair. */
module ConsolePorts {
  import opened JsStrings

  const FIRST_CONSOLE_PORT := 5554
  const CONSOLE_PORT_COUNT := 64

  /** `digest` is the first word of the id's SHA-256. */
  function Candidates(digest: nat): (ports: seq<int>)
    ensures |ports| == CONSOLE_PORT_COUNT
  {
    var slot := digest % CONSOLE_PORT_COUNT;
    seq(CONSOLE_PORT_COUNT, offset => FIRST_CONSOLE_PORT + 2 * ((slot + offset) % CONSOLE_PORT_COUNT))
  }

  predicate IsConsolePort(port: int) {
    port % 2 == 0 && 5554 <= port <= 5680
  }

  /** Where in its order a workflow tries a port. */
  function PlaceOf(digest: nat, port: int): int {
    (((port - FIRST_CONSOLE_PORT) / 2 - digest % CONSOLE_PORT_COUNT) + CONSOLE_PORT_COUNT) % CONSOLE_PORT_COUNT
  }

  lemma CandidateAt(digest: nat, port: int)
    requires IsConsolePort(port)
    ensures 0 <= PlaceOf(digest, port) < CONSOLE_PORT_COUNT
    ensures Candidates(digest)[PlaceOf(digest, port)] == port
  {
    var slot, n := digest % CONSOLE_PORT_COUNT, (port - FIRST_CONSOLE_PORT) / 2;
    var place := PlaceOf(digest, port);
    assert 0 <= n < CONSOLE_PORT_COUNT && 0 <= slot < CONSOLE_PORT_COUNT;
    assert place == if n >= slot then n - slot else n - slot + CONSOLE_PORT_COUNT;
    assert (slot + place) % CONSOLE_PORT_COUNT == n;
  }

  lemma CandidatesAreConsolePorts(digest: nat, i: nat)
    requires i < CONSOLE_PORT_COUNT
    ensures IsConsolePort(Candidates(digest)[i])
    ensures PlaceOf(digest, Candidates(digest)[i]) == i
  {
    var slot := digest % CONSOLE_PORT_COUNT;
    var n := (slot + i) % CONSOLE_PORT_COUNT;
    assert n == if slot + i < CONSOLE_PORT_COUNT then slot + i else slot + i - CONSOLE_PORT_COUNT;
    assert (Candidates(digest)[i] - FIRST_CONSOLE_PORT) / 2 == n;
  }

  /** Whatever the id, each of the 64 even ports is tried, and tried once. */
  lemma CandidatesArePermutation(digest: nat)
    ensures forall port :: port in Candidates(digest) <==> IsConsolePort(port)
    ensures forall i, j :: 0 <= i < j < CONSOLE_PORT_COUNT ==> Candidates(digest)[i] != Candidates(digest)[j]
  {
    forall port ensures port in Candidates(digest) <==> IsConsolePort(port) {
      if IsConsolePort(port) { CandidateAt(digest, port); }
      if port in Candidates(digest) {
        var i :| 0 <= i < CONSOLE_PORT_COUNT && Candidates(digest)[i] == port;
        CandidatesAreConsolePorts(digest, i);
      }
    }
    forall i, j | 0 <= i < j < CONSOLE_PORT_COUNT ensures Candidates(digest)[i] != Candidates(digest)[j] {
      CandidatesAreConsolePorts(digest, i);
      CandidatesAreConsolePorts(digest, j);
    }
  }

  /** Two workflows on different console ports never meet on an adb port. */
  lemma PairsAreDisjoint(digest: nat, other: nat, i: nat, j: nat)
    requires i < CONSOLE_PORT_COUNT && j < CONSOLE_PORT_COUNT && Candidates(digest)[i] != Candidates(other)[j]
    ensures var p, q := Candidates(digest)[i], Candidates(other)[j]; {p, p + 1} !! {q, q + 1}
  {
    CandidatesAreConsolePorts(digest, i);
    CandidatesAreConsolePorts(other, j);
  }

  /** A port is found exactly when some console port and the port above it are both free; it is the first such one in order. */
  method AllocateConsolePort(digest: nat, free: int -> bool) returns (port: Option<int>)
    ensures port.Some? <==> exists p :: IsConsolePort(p) && free(p) && free(p + 1)
    ensures port.Some? ==>
              && IsConsolePort(port.value) && free(port.value) && free(port.value + 1)
              && forall p :: IsConsolePort(p) && free(p) && free(p + 1) ==> PlaceOf(digest, port.value) <= PlaceOf(digest, p)
  {
    var candidates := Candidates(digest);
    for i := 0 to |candidates|
      invariant forall k :: 0 <= k < i ==> !(free(candidates[k]) && free(candidates[k] + 1))
    {
      if free(candidates[i]) && free(candidates[i] + 1) {
        CandidatesAreConsolePorts(digest, i);
        forall p | IsConsolePort(p) && free(p) && free(p + 1) ensures i <= PlaceOf(digest, p) {
          CandidateAt(digest, p);
        }
        return Some(candidates[i]);
      }
    }
    forall p | IsConsolePort(p) ensures !(free(p) && free(p + 1)) {
      CandidateAt(digest, p);
    }
    return None;
  }
}
