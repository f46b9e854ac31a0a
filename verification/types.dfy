/** Values that flow through one recommendation run: the weather reply,
    catalog tracks, audio features and the search request.  The external
    services that produce them are not modelled; their results are inputs. */
module Types {

  datatype Option<+T> = None | Some(value: T)

  /** A scalar JSON value, as far as the weather reply's status field needs one.
      JSON numbers are kept as reals, so an integer 200 and a float 200.0 are
      the same value, as they compare equal in Python. */
  datatype JsonScalar = JNum(n: real) | JStr(s: string) | JOther

  /** One entry of the weather reply's `weather` list. */
  datatype Condition = Condition(main: string, description: string)

  /** The parsed weather reply: its `cod` status (absent in a reply without
      one), its `weather` list and its `main.temp` (absent when missing). */
  datatype Weather = Weather(cod: Option<JsonScalar>, conditions: seq<Condition>,
                             temperature: Option<real>)

  /** A catalog track.  Album art and the external link are only rendered and
      play no part in any decision. */
  datatype Track = Track(id: string, name: string, artists: seq<string>, uri: string)

  /** One audio-feature record; `tempo` is None when the record has no such key. */
  datatype Feature = Feature(id: string, tempo: Option<real>)

  /** A catalog search request: query text and result limit. */
  datatype Query = Query(text: string, limit: int)

  /** The results of the two catalog calls, taken as given.  Both calls are
      fail-soft (an empty list on any failure), so both are total. */
  datatype Catalog = Catalog(search: Query -> seq<Track>,
                             features: seq<string> -> seq<Option<Feature>>)

  /** The three recommendation modes, each with its own parameter. */
  datatype Mode = Basic | Tempo(minBpm: int) | Custom(userKeyword: string)
}
