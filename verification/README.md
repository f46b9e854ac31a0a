# Weather → playlist: the decision layer

The application is a single Streamlit script. It looks up the current weather
for a city, maps the weather category to a mood keyword and searches a music
catalog with that keyword. It can optionally keep only tracks above a minimum
tempo, and it can save the result as a private playlist. This project models
the deterministic part of that pipeline in Dafny and proves its properties:

- **Mood mapping** (`Mood`). The first condition's category is lower-cased and
  looked up in a fixed five-entry table. Anything else maps to `"chill mood"`.
- **Query construction** (`Recommend`). Basic mode searches with the keyword
  alone. Tempo mode searches with the keyword plus `" upbeat dance"` and asks
  for three times the track limit. Custom mode searches with the keyword, a
  space and the user's words.
- **Tempo filter with fallback** (`TempoFilter`). This is an id → feature
  index: null entries are skipped and a later entry for an id wins. A
  candidate is kept, in relevance order, when the index has its id and its
  tempo (0 when the key is absent) reaches the threshold. If no candidate is
  kept, the first `track_limit` candidates are returned. Otherwise the kept
  list is cut to `track_limit`. The source runs this step by step. The model
  does the same with `BuildFeatureMap` and `FilterByTempo`, and proves both
  equal to the functions `FeatureMap` and `TempoPick`. The properties are
  lemmas about those functions.
- **One run** (`Run`). The run stops unless the weather reply is present and
  its `cod` equals the number 200. It stops on an empty track list. Otherwise
  it collects the track URIs in display order. The playlist request gets
  exactly those URIs.

The network calls become inputs. The weather reply is an `Option<Weather>`.
The catalog's two endpoints are a `Catalog` value holding two total functions:
the query → track-list search and the id-list → feature-list lookup. Both
endpoints fail soft in the source, so both functions are total.

The user picks a track count with a slider, but the code cuts only the
Tempo-mode result to that count. Basic and Custom return whatever the search
returns, so `Recommendation` keeps within the count in those modes only when
the catalog honours the limit it is given.

## Model

| member | source | states |
|---|---|---|
| Mood.ToLower | final_copy.py:52 | keeps the length, lower-cases each character, and leaves no upper-case letter |
| Mood.ToLowerIdempotent | final_copy.py:52 | lower-casing an already lower-cased category changes nothing |
| Mood.KeywordFor | final_copy.py:51-60 | a category whose lower-cased form is a table key gets that key's keyword; any other category gets `"chill mood"` |
| Mood.WeatherToKeyword | final_copy.py:51-60 | the reply's keyword, read from its first condition's category, is `"chill mood"` exactly when that category (lower-cased) is not in the table, and one of the table's keywords otherwise |
| Mood.KeywordIgnoresCase | final_copy.py:52 | two categories equal up to letter case get the same keyword, which is also the keyword of the lower-cased form |
| Mood.KnownCategories | final_copy.py:53-59 | in any letter case: clear → "happy pop bright", clouds → "indie chill", rain → "lofi rainy chill", snow → "cozy acoustic", thunderstorm → "dark edm" |
| Mood.DefaultExactlyWhenUnknown | final_copy.py:60 | the result is `"chill mood"` exactly when the category is not in the table; otherwise it is one of the table's keywords (a total mapping) |
| Mood.KeywordDeterminesCategory | final_copy.py:53-59 | two known categories with the same keyword are the same category (the table is injective) |
| Mood.ServiceCategories | final_copy.py:52-59 | the capitalised categories "Clear", "Clouds", "Rain", "Snow" and "Thunderstorm" get their table keywords |
| Mood.UnmappedServiceCategories | final_copy.py:60 | the categories "Drizzle" and "Mist" fall back to `"chill mood"` |
| TempoFilter.Take | final_copy.py:113 | the slice `s[:n]` has length min(n, len(s)) and is a prefix of `s` |
| TempoFilter.FeatureMap | final_copy.py:104 | every index entry is a non-null entry of the feature list, filed under its own id |
| TempoFilter.FeatureMapSpec | final_copy.py:104 | an id is in the index exactly when some non-null feature entry carries it, and the index then holds the last such entry |
| TempoFilter.BuildFeatureMap | final_copy.py:104 | building the index entry by entry gives exactly `FeatureMap` of the feature list |
| TempoFilter.TempoOrZero | final_copy.py:109 | a feature entry's tempo is compared as is, and an entry without a tempo key counts as 0 |
| TempoFilter.Passes | final_copy.py:108-109 | a candidate passes only if the index has an entry for its id; it then passes exactly when that tempo is ≥ `min_bpm`, or, when the entry has no tempo, exactly when `min_bpm` ≤ 0 |
| TempoFilter.Passing | final_copy.py:106-110 | the kept candidates are no more than the pool, and each is a pool track whose id has an index entry with tempo (0 if absent) ≥ `min_bpm` |
| TempoFilter.PassingIsSubseq | final_copy.py:106-110 | the kept candidates are an order-preserving subsequence of the pool |
| TempoFilter.PassingMembers | final_copy.py:106-110 | a track is kept exactly when it is in the pool, its id has a feature entry and its tempo (0 if absent) is ≥ `min_bpm` |
| TempoFilter.PassingAll | final_copy.py:106-110 | when every candidate passes, the kept list is the whole pool |
| TempoFilter.TempoPick | final_copy.py:104-115 | the result has at most `track_limit` tracks and at most as many as the pool, holds only pool tracks, and is empty exactly when the pool is empty or `track_limit` is 0 (over-filtering never empties it) |
| TempoFilter.FilterByTempo | final_copy.py:104-115 | the loop with its fallback and cut returns `TempoPick` of the pool and the features |
| TempoFilter.TempoPickSubseq | final_copy.py:106-115 | the result is an order-preserving subsequence of the pool, and every returned track is in the pool |
| TempoFilter.TempoPickFiltered | final_copy.py:104-115 | when some candidate passes, the result is the first `track_limit` kept tracks, and each has a non-null feature entry whose tempo is ≥ `min_bpm` |
| TempoFilter.TempoPickFallback | final_copy.py:112-113 | when no candidate passes, the result is the first `track_limit` entries of the unfiltered pool |
| TempoFilter.TempoPickAllPass | final_copy.py:106-115 | when every candidate passes, the result is the pool cut to `track_limit`, in its original order |
| TempoFilter.NoFeatureNeverKept | final_copy.py:104-109 | a candidate whose id has no non-null feature entry is never kept |
| Recommend.BasicQuery | final_copy.py:96 | the Basic query text is the mood keyword alone, and it asks for `track_limit` tracks |
| Recommend.TempoQuery | final_copy.py:100 | the Tempo query text is the mood keyword followed by `" upbeat dance"`, and it asks for three times `track_limit` tracks |
| Recommend.CustomQuery | final_copy.py:119 | the Custom query text is the mood keyword, one space and the user's words (its length is the sum plus one), and it asks for `track_limit` tracks |
| Recommend.CustomQueryRecoversKeyword | final_copy.py:119 | the user's words are exactly what follows the keyword and one space in a Custom query |
| Recommend.Ids | final_copy.py:102 | the features request lists the pool's ids, one per track, in order |
| Recommend.GenerateBasic | final_copy.py:94-96 | the result is the catalog's answer to the weather's keyword with limit `track_limit`, and stays within `track_limit` when the catalog honours the limit |
| Recommend.GenerateCustom | final_copy.py:117-119 | the result is the catalog's answer to the keyword, a space and the user's words with limit `track_limit`, and stays within `track_limit` when the catalog honours the limit |
| Recommend.TempoPool | final_copy.py:99-100 | the Tempo candidate pool is the catalog's answer to the weather's keyword plus `" upbeat dance"`, with limit `3 * track_limit` |
| Recommend.TempoRecommendation | final_copy.py:98-115 | Tempo mode returns at most `track_limit` tracks, in order from the oversampled pool, and returns nothing exactly when that pool is empty or the limit is 0 |
| Recommend.GenerateTempo | final_copy.py:98-115 | searches the oversampled pool, filters it with the features fetched for its ids, returns at most `track_limit` tracks, and keeps them in pool order |
| Recommend.Recommendation | final_copy.py:180-187 | the mode dispatch: never more than `track_limit` tracks in Tempo mode, or in any mode when the catalog honours the limit; a Tempo result comes in order from its pool |
| Recommend.ClearBasicScenario | final_copy.py:94-96 | with a "Clear" reply, Basic mode searches for "happy pop bright" with limit `track_limit` |
| Recommend.RainCustomScenario | final_copy.py:117-119 | with a "Rain" reply and the word "summer", Custom mode searches for "lofi rainy chill summer" |
| Run.WeatherFound | final_copy.py:174 | the guard passes only with a reply present that carries a status, and never with a textual status |
| Run.Displayable | final_copy.py:178 | a reply the success message can show has a first condition, so its category can be looked up |
| Run.GuardCases | final_copy.py:174-176 | a missing reply, a status that is absent, the string "404" or the string "200" stops the run; the number 200 passes |
| Run.CollectUris | final_copy.py:195-203 | one URI per displayed track, in display order |
| Run.RunOnce | final_copy.py:171-212 | the run stops with "not found" exactly when the guard fails, and stops with "no results" exactly when the recommendation is empty. Otherwise it shows that recommendation with its URIs in order, and requests a playlist of exactly those URIs for the city when asked |

## Left out

- The weather, token, search and audio-features HTTP calls (final_copy.py:37-49, 65-89) are network I/O. Their results are inputs: an `Option<Weather>` and a `Catalog` of two total functions. Both catalog calls fail soft in the source, so neither can fail in the model.
- OAuth and playlist creation (final_copy.py:22-32, 124-136) are foreign library calls. The model stops at the arguments of `create_playlist_auto`: the city and the URI list. The playlist name depends on the wall clock. The error path after creation is UI only.
- Streamlit rendering and widgets (final_copy.py:141-212) are UI. The slider keeps `track_limit` in 5..30, so the model takes it as a `nat`. Python's slicing with a negative limit is not modelled.
- Environment loading and the process-wide token and headers (final_copy.py:12-17, 71-72) are configuration.
- Mood.ToLower: folds only A–Z, not Unicode lower-casing. Only two non-ASCII code points lower-case to ASCII letters: U+0130 lowers to "i" plus a combining mark, and U+212A lowers to "k". Neither can produce one of the five table keys, so the keyword looked up is the same.
- Tempo is a `real` and `min_bpm` an `int`. Floating-point rounding plays no part, because only `>=` is used. A feature whose `tempo` is JSON null makes the source raise a TypeError; this case is not modelled (an absent key counts as 0).
- A successful weather reply without a first condition or a `main.temp` makes the source raise at the success message. The model ends such a run in `MalformedWeather`. A track without album art, artists or an external link would make the display loop raise. The model's `Track` has no such fields and does not model that failure.
- Recommend.Recommendation: for Basic and Custom the bound holds only if the catalog returns at most the requested number of tracks. The code does not cut those lists itself.
- Recommend.GenerateBasic: stays within `track_limit` only if the catalog does, for the same reason.
- Recommend.GenerateCustom: stays within `track_limit` only if the catalog does, for the same reason.
