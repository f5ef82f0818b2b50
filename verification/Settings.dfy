/** The configuration source the extension reads through `getCfg<T>(key)`,
    modelled as an injected read-only map from setting keys to typed values.
    A key that is missing reads as `undefined`. */
module Settings {
  import opened Wrappers

  datatype Value =
    | Text(text: string)
    | Number(number: int)
    | Flag(flag: bool)
    | TextList(items: seq<string>)

  type Config = map<string, Value>

  /** `getCfg<string>(key)`; a value of another type reads as absent. */
  function GetText(cfg: Config, key: string): (r: Option<string>)
    ensures r.Some? <==> key in cfg && cfg[key].Text?
    ensures r.Some? ==> cfg[key] == Text(r.value)
  {
    if key in cfg && cfg[key].Text? then Some(cfg[key].text) else None
  }

  /** `getCfg<number>(key)`. */
  function GetNumber(cfg: Config, key: string): (r: Option<int>)
    ensures r.Some? <==> key in cfg && cfg[key].Number?
    ensures r.Some? ==> cfg[key] == Number(r.value)
  {
    if key in cfg && cfg[key].Number? then Some(cfg[key].number) else None
  }

  /** `!!getCfg<boolean>(key)`: true only for a stored `true`. */
  function IsSet(cfg: Config, key: string): (r: bool)
    ensures r <==> key in cfg && cfg[key] == Flag(true)
  {
    key in cfg && cfg[key].Flag? && cfg[key].flag
  }

  /** `getCfg<string[]>(key) || []`. */
  function GetList(cfg: Config, key: string): (r: seq<string>)
    ensures key in cfg && cfg[key].TextList? ==> cfg[key] == TextList(r)
    ensures !(key in cfg && cfg[key].TextList?) ==> r == []
  {
    if key in cfg && cfg[key].TextList? then cfg[key].items else []
  }

  /** `getCfg<string>(key) || fallback`: an empty string counts as missing. */
  function TextOr(cfg: Config, key: string, fallback: string): (r: string)
    ensures r == fallback <== GetText(cfg, key).None? || GetText(cfg, key) == Some("")
    ensures GetText(cfg, key).Some? && GetText(cfg, key).value != "" ==> r == GetText(cfg, key).value
    ensures fallback != "" ==> r != ""
  {
    match GetText(cfg, key)
    case Some(v) => if v != "" then v else fallback
    case None => fallback
  }
}
