/** The URL automaton shared by http_parser_execute and http_parser_parse_url. */
module UrlChar {
  import opened Chars
  import opened ParserTypes

  /** parse_url_char: the state after `ch`, `UrlDead` when the URL is invalid. */
  function Next(s: UrlState, ch: char): UrlState {
    if ch == ' ' || ch == CR || ch == LF || ch == '\t' || ch == '\U{000C}' then UrlDead
    else match s
      case UrlDead => UrlDead
      case UrlStart =>
        if ch == '/' || ch == '*' then Path
        else if IsAlpha(ch) then Schema
        else UrlDead
      case Schema =>
        if IsAlpha(ch) then Schema
        else if ch == ':' then SchemaSlash
        else UrlDead
      case SchemaSlash => if ch == '/' then SchemaSlashSlash else UrlDead
      case SchemaSlashSlash => if ch == '/' then ServerStart else UrlDead
      case ServerWithAt => if ch == '@' then UrlDead else InServer(ch)
      case ServerStart => InServer(ch)
      case Server => InServer(ch)
      case Path =>
        if IsUrlChar(ch) then Path
        else if ch == '?' then QueryStart
        else if ch == '#' then FragmentStart
        else UrlDead
      case QueryStart => InQuery(ch)
      case Query => InQuery(ch)
      case FragmentStart =>
        if IsUrlChar(ch) || ch == '?' then Fragment
        else if ch == '#' then FragmentStart
        else UrlDead
      case Fragment => if IsUrlChar(ch) || ch == '?' || ch == '#' then Fragment else UrlDead
  }

  function InServer(ch: char): UrlState {
    if ch == '/' then Path
    else if ch == '?' then QueryStart
    else if ch == '@' then ServerWithAt
    else if IsUserinfoChar(ch) || ch == '[' || ch == ']' then Server
    else UrlDead
  }

  function InQuery(ch: char): UrlState {
    if IsUrlChar(ch) || ch == '?' then Query
    else if ch == '#' then FragmentStart
    else UrlDead
  }

  /** The state after the first `n` bytes of `d`. */
  function After(s: UrlState, d: string, n: nat): UrlState
    requires n <= |d|
  {
    if n == 0 then s else Next(After(s, d, n - 1), d[n - 1])
  }
}
