/** strings.TrimSpace over the code points that unicode.IsSpace accepts. */
module Text {
  predicate IsSpace(c: char) {
    var n := c as int;
    9 <= n <= 13 || n == 32 || n == 0x85 || n == 0xA0 || n == 0x1680 || 0x2000 <= n <= 0x200a
    || n == 0x2028 || n == 0x2029 || n == 0x202f || n == 0x205f || n == 0x3000
  }

  function TrimLeft(s: string): string {
    if s != "" && IsSpace(s[0]) then TrimLeft(s[1..]) else s
  }

  function TrimRight(s: string): string {
    if s != "" && IsSpace(s[|s| - 1]) then TrimRight(s[..|s| - 1]) else s
  }

  function TrimSpace(s: string): string {
    TrimRight(TrimLeft(s))
  }

  predicate Trimmed(s: string) {
    s != "" ==> !IsSpace(s[0]) && !IsSpace(s[|s| - 1])
  }

  lemma {:induction false} TrimRightKeepsHead(s: string)
    requires s != "" ==> !IsSpace(s[0])
    ensures Trimmed(TrimRight(s)) && TrimRight(s) <= s
  {
    if s != "" && IsSpace(s[|s| - 1]) {
      TrimRightKeepsHead(s[..|s| - 1]);
    }
  }

  lemma {:induction false} TrimLeftHead(s: string)
    ensures TrimLeft(s) != "" ==> !IsSpace(TrimLeft(s)[0])
  {
    if s != "" && IsSpace(s[0]) {
      TrimLeftHead(s[1..]);
    }
  }

  lemma {:induction false} TrimLeftDrops(s: string) returns (front: string)
    ensures s == front + TrimLeft(s) && forall c :: c in front ==> IsSpace(c)
  {
    front := "";
    if s != "" && IsSpace(s[0]) {
      front := TrimLeftDrops(s[1..]);
      front := [s[0]] + front;
    }
  }

  lemma {:induction false} TrimRightDrops(s: string) returns (back: string)
    ensures s == TrimRight(s) + back && forall c :: c in back ==> IsSpace(c)
  {
    back := "";
    if s != "" && IsSpace(s[|s| - 1]) {
      back := TrimRightDrops(s[..|s| - 1]);
      back := back + [s[|s| - 1]];
    }
  }

  /** Trimming drops spaces at both ends and nothing else. */
  lemma TrimDropsSpaces(s: string) returns (front: string, back: string)
    ensures s == front + TrimSpace(s) + back && Trimmed(TrimSpace(s))
    ensures forall c :: c in front || c in back ==> IsSpace(c)
  {
    front := TrimLeftDrops(s);
    back := TrimRightDrops(TrimLeft(s));
    TrimIsProjection(s);
  }

  /** Trimming yields a trimmed string, and trimmed strings are its fixed points. */
  lemma TrimIsProjection(s: string)
    ensures Trimmed(TrimSpace(s)) && TrimSpace(TrimSpace(s)) == TrimSpace(s)
    ensures Trimmed(s) ==> TrimSpace(s) == s
  {
    TrimLeftHead(s);
    TrimRightKeepsHead(TrimLeft(s));
  }
}
