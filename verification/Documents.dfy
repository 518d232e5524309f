/**
 JSON values and the few Python operations on them that `recipe.py` uses: truth, lookup, `list`,
 `str` and `strip`. `str` of anything but text is a parameter `show`.
 */
module Documents {
  import opened Options

  datatype Json =
    | Null
    | Bool(b: bool)
    | Num(x: real)
    | Str(s: string)
    | List(items: seq<Json>)
    | Dict(fields: map<string, Json>)

  type Args = map<string, Json>

  predicate Truthy(j: Json) {
    match j
    case Null => false
    case Bool(b) => b
    case Num(x) => x != 0.0
    case Str(s) => s != ""
    case List(items) => items != []
    case Dict(fields) => fields != map[]
  }

  /** `args.get(key)`. */
  function Get(args: Args, key: string): Json { if key in args then args[key] else Null }

  /** `list(value)`: nothing when that raises. An object gives its keys, in the order `keys` says. */
  function Listed(keys: Args -> seq<string>, j: Json): Option<seq<Json>> {
    match j
    case List(items) => Some(items)
    case Str(s) => Some(seq(|s|, (i: nat) requires i < |s| => Str([s[i]])))
    case Dict(fields) => Some(seq(|keys(fields)|, (i: nat) requires i < |keys(fields)| => Str(keys(fields)[i])))
    case _ => None
  }

  /** `str(value)` never gives an empty text for a value that counts as true. */
  ghost predicate ShowLaw(show: Json -> string) { forall j: Json :: show(j) != "" }

  function Text(show: Json -> string, j: Json): string { if j.Str? then j.s else show(j) }

  /** `str(value or "")`. */
  function TextOr(show: Json -> string, j: Json): string { if Truthy(j) then Text(show, j) else "" }

  // ---- strip

  predicate Space(c: char) { c == ' ' || '\t' <= c <= '\r' }

  function StripLeft(s: string): string { if s != "" && Space(s[0]) then StripLeft(s[1..]) else s }

  function StripRight(s: string): string { if s != "" && Space(s[|s| - 1]) then StripRight(s[..|s| - 1]) else s }

  function Strip(s: string): string { StripRight(StripLeft(s)) }

  predicate Stripped(s: string) { s == "" || (!Space(s[0]) && !Space(s[|s| - 1])) }

  lemma {:induction false} StripLeftEnds(s: string)
    ensures StripLeft(s) == "" || !Space(StripLeft(s)[0])
  {
    if s != "" && Space(s[0]) {
      StripLeftEnds(s[1..]);
    }
  }

  lemma {:induction false} StripRightEnds(s: string)
    ensures StripRight(s) <= s && (StripRight(s) == "" || !Space(StripRight(s)[|StripRight(s)| - 1]))
  {
    if s != "" && Space(s[|s| - 1]) {
      StripRightEnds(s[..|s| - 1]);
    }
  }

  /** Stripping leaves no space at the ends, and a text without any is left as it is. */
  lemma StripEnds(s: string)
    ensures Stripped(Strip(s)) && (Stripped(s) ==> Strip(s) == s)
  {
    StripLeftEnds(s);
    StripRightEnds(StripLeft(s));
  }
}
