/**
 * The two pieces of mutable state every Restore call threads through:
 * the shared text buffer (Go's *strings.Builder) and the optional
 * placeholder-index accumulator (Go's *[]int, nil when not collecting).
 */
module Builders {

  /** An append-only text buffer. */
  class Builder {
    var buf: string

    constructor ()
      ensures buf == ""
    {
      buf := "";
    }

    method WriteString(s: string)
      modifies this
      ensures buf == old(buf) + s
    {
      buf := buf + s;
    }

    method WriteByte(c: char)
      modifies this
      ensures buf == old(buf) + [c]
    {
      buf := buf + [c];
    }
  }

  /** The placeholder-index slice that `*args = append(*args, ...)` grows. */
  class Args {
    var items: seq<int>

    constructor ()
      ensures items == []
    {
      items := [];
    }

    method Append(n: int)
      modifies this
      ensures items == old(items) + [n]
    {
      items := items + [n];
    }

    method AppendAll(ns: seq<int>)
      modifies this
      ensures items == old(items) + ns
    {
      items := items + ns;
    }
  }
}
