/** The parse tree of `src/main.rs` and the error-or-value result of the parser. */
module Tree {

  /** `Result<Tagged, String>`: the parser either yields a value or an error message. */
  datatype Result<T, E> = Ok(value: T) | Err(error: E)

  /**
   * `ToT` ("tagged or terminal"): a prefix or instruction entry is either raw
   * text (`ToT::String`) or a parsed nested form (`ToT::Tagged`).
   */
  datatype ToT = Str(s: string) | Tag(t: Tagged)

  /** One parenthesised form: its label (`name`, since `label` is a Dafny keyword), the entries before the instruction stream, and the instructions. */
  datatype Tagged = Tagged(name: string, prefix: seq<ToT>, instructions: seq<ToT>)

  /** Every entry of `entries` is raw text. */
  predicate AllStr(entries: seq<ToT>) {
    forall k :: 0 <= k < |entries| ==> entries[k].Str?
  }

  /** Wraps each string as a `ToT::String` entry, keeping order (the `map(ToT::String).collect()` calls). */
  function Strs(ss: seq<string>): (r: seq<ToT>)
    ensures |r| == |ss| && AllStr(r)
    ensures forall k :: 0 <= k < |ss| ==> r[k] == Str(ss[k])
  {
    seq(|ss|, k requires 0 <= k < |ss| => Str(ss[k]))
  }
}
