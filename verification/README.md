# glm-met conversion layer in Dafny

glm-met fetches meteorological data from four providers and turns it into
the meteorological input file of the General Lake Model (GLM). The four
providers are open-meteo historical, open-meteo climate change, NASA POWER
and SILO. Each adapter object does three things:

- it builds a query from its location, date range and variable list;
- it splits the provider's response into a data table and a metadata dict
  (`get_variables`);
- it rewrites the table into GLM's seven columns and writes it out
  (`convert_to_glm`, `write_glm_met`).

This project models that pure conversion layer. The HTTP response and the
parsed CSV are inputs. Each adapter is an immutable datatype. The methods
that change it (`get_variables`, `convert_to_glm` and the historical
`write_glm_met`) return the new adapter; queries and exports are returned
as values.

Modules:

- `Values` models Python values as parsed from JSON. It covers dicts as
  ordered item sequences, `d[k]`, `d.pop(k)` and key restriction.
- `Text` models `sep.join`, `str.split`, `str.find` and single-character
  `str.replace`.
- `Tables` models data frames. A table is an index (a range or string
  labels), a column order and one column of cells per name. It also covers
  `pd.DataFrame(dict)` and `df.drop(columns=...)`.
- `Requests` models endpoints and query parameters. It includes the
  `{**payload, **request_settings}` merge, which is Dafny's right-biased
  map union.
- `Met` models the raw container (metadata plus table), the split of a
  response, and the raw `met_raw.zip` export. An export is a list of named
  file contents.
- `Glm` models the GLM column set, the unit conversions and the shape of a
  GLM table.
- The adapters: `HistoricalAdapter`, `ClimateAdapter`, `PowerAdapter` and
  `SiloAdapter`.

Numbers are Dafny `real`, so the scaling identities hold exactly. A cell is
a number, a text or missing. pandas' NaN/None is a missing cell, and
arithmetic leaves a missing cell missing.

## Model

| member | source | states |
|---|---|---|
| Values.Get | glm_met/openmeteo/historical.py:153 | `d[k]`: found exactly when k is a key, and then it is the value stored under k |
| Values.Remove | glm_met/openmeteo/historical.py:152-153 | `d.pop(k)` leaves exactly the other keys, each with its value, and a dict stays a dict |
| Values.RemoveAbsent | glm_met/openmeteo/historical.py:152-153 | popping a key that is not there leaves the dict as it was |
| Values.RemoveAt | glm_met/openmeteo/historical.py:152-153 | in a dict, popping the key of item i leaves `d[..i] + d[i + 1..]`: the other items keep their order |
| Values.Restrict | glm_met/nasa_power/nasa_power.py:123-126 | keeping the keys in a set leaves exactly the keys of d in that set, each with its value |
| Text.FindFrom | glm_met/silo/silo.py:158 | `find` returns the first occurrence of the pattern at or after the start, or none when there is none |
| Text.Split | glm_met/silo/silo.py:158 | `split` always yields at least one piece |
| Text.SplitPiecesClean | glm_met/silo/silo.py:158 | no piece of a split contains the separator |
| Text.Join | glm_met/openmeteo/historical.py:142 | `",".join`: an empty list joins to ""; otherwise the result starts with the first part and is as long as all the parts plus one separator between each two |
| Text.JoinSplit | glm_met/openmeteo/historical.py:142 | joining the pieces of a split with its separator gives the string back |
| Text.SplitJoin | glm_met/openmeteo/historical.py:142 | splitting a comma-joined non-empty list whose items hold no comma gives the list back |
| Text.ReplaceChar | glm_met/openmeteo/historical.py:239 | `replace(a, b)` keeps the length and changes exactly the a characters into b |
| Text.ReplaceCharBack | glm_met/openmeteo/historical.py:239 | replacing back restores the string when b did not occur in it |
| Text.DeleteChar | glm_met/nasa_power/nasa_power.py:108-109 | `replace(c, "")` leaves no c and never lengthens the string |
| Text.DeleteCharCounts | glm_met/nasa_power/nasa_power.py:108-109 | `replace(c, "")` keeps every other character as often as it occurs and removes every c |
| Text.DeleteCharAppend | glm_met/nasa_power/nasa_power.py:108-109 | deleting a character distributes over concatenation |
| Text.DeleteCharIdempotent | glm_met/nasa_power/nasa_power.py:108-109 | deleting a character twice is deleting it once |
| Tables.FromDict | glm_met/openmeteo/historical.py:153 | a dict of equal-length lists becomes a well-formed table: one column per key in key order, the list's cells, and a positional index |
| Tables.FromNested | glm_met/nasa_power/nasa_power.py:122 | a dict of aligned dicts becomes a well-formed table: one column per outer key, with the inner keys as row labels |
| Tables.Drop | glm_met/silo/silo.py:170 | dropping a column removes exactly it from the order and the columns; every other column and the rows stay as they were |
| Requests.Merge | glm_met/openmeteo/historical.py:148-149 | the merged query has every key of either dict; a caller's value wins and every other built-in value stays |
| Requests.Display | glm_met/openmeteo/historical.py:137-145 | a dict display has exactly the listed keys, each mapped to the value written beside it |
| Met.PopMember | glm_met/openmeteo/historical.py:152-154 | the member becomes the table; the metadata is the response with exactly that key removed and nothing else changed |
| Met.WriteCsv | glm_met/openmeteo/historical.py:192-194 | `to_csv(index=False)`: the file holds every column in order with its cells and the same number of rows, numbered from 0 rather than by the table's index |
| Met.WriteMet | glm_met/openmeteo/historical.py:181-210 | the raw export is met_raw.zip holding met_raw.csv then met_raw_metadata.json |
| Met.RawExportRoundTrip | glm_met/openmeteo/historical.py:191-210 | reading the raw archive back gives the metadata unchanged and every column of the table in order, cell for cell; the index is not written, so the rows come back numbered from 0 |
| Met.PoppedExportRoundTrip | glm_met/openmeteo/historical.py:152-199 | a table popped from a response already has numbered rows, so its raw archive gives back exactly the fetched table and metadata |
| Glm.CloudFractionBounded | glm_met/openmeteo/historical.py:227-229 | cloud cover given in [0, 100] percent becomes a fraction in [0, 1] |
| Glm.CloudFractionRoundTrip | glm_met/openmeteo/historical.py:243 | cloud fraction times 100 is the original percentage, missing values included |
| Glm.CloudFraction | glm_met/openmeteo/historical.py:243 | `/ 100`: one cell per input cell, each number divided by 100, missing staying missing |
| Glm.DailyRain | glm_met/openmeteo/climate_change.py:210 | `/ 1000`: one cell per input cell, each number divided by 1000, missing staying missing |
| Glm.HourlyRain | glm_met/openmeteo/historical.py:247 | `(x / 1000) * 24`: one cell per input cell, each number times 24 / 1000, missing staying missing |
| Glm.GlmColumnsNamed | glm_met/openmeteo/historical.py:237-248 | the GLM columns are seven distinct names |
| Glm.GlmTableWf | glm_met/openmeteo/historical.py:235-249 | a table holding the seven GLM columns in order, each with one cell per row, is well formed |
| Glm.Assemble | glm_met/openmeteo/historical.py:235-249 | seven equally long columns make a GLM table: exactly the GLM columns in order, each holding the column given for it |
| HistoricalAdapter.New | glm_met/openmeteo/historical.py:68-76 | the constructor stores its arguments; when they are omitted, the timezone is "auto" and the mode is hourly |
| HistoricalAdapter.DefaultRequest | glm_met/openmeteo/historical.py:132-146 | an adapter built with the defaults requests the default hourly variables, joined by commas, in the "auto" timezone |
| HistoricalAdapter.Request | glm_met/openmeteo/historical.py:132-172 | the query has exactly the seven built-in keys (variables under "hourly" or "daily" by mode) plus the caller's keys; it sends the joined variables, location, dates, timezone and "ms" unless the caller overrides them |
| HistoricalAdapter.RequestedVariablesRoundTrip | glm_met/openmeteo/historical.py:142 | the joined variable string splits back into the variable list |
| HistoricalAdapter.DefaultVariablesRequested | glm_met/openmeteo/historical.py:133-142 | with no variable list, the query names exactly the mode's default variables |
| HistoricalAdapter.GetVariables | glm_met/openmeteo/historical.py:132-179 | the variable list is fixed to the default when absent; the mode's member becomes the table; the metadata is the rest of the response; nothing else changes |
| HistoricalAdapter.FetchKeepsRequest | glm_met/openmeteo/historical.py:133-135 | after a fetch, the adapter builds the same query it did before |
| HistoricalAdapter.HourlyStamp | glm_met/openmeteo/historical.py:238-241 | the GLM stamp is the raw stamp with each T turned into a space and ":00" appended; other characters are kept |
| HistoricalAdapter.HourlyStampRoundTrip | glm_met/openmeteo/historical.py:238-241 | the provider's stamp can be recovered from the GLM stamp |
| HistoricalAdapter.HourlyStampExample | glm_met/openmeteo/historical.py:236-241 | 2020-01-01T05:00 becomes 2020-01-01 05:00:00 |
| HistoricalAdapter.HourlyDefaultConverted | glm_met/openmeteo/settings.py:27-34 | every default hourly variable is a column the conversion reads |
| HistoricalAdapter.ConvertHourly | glm_met/openmeteo/historical.py:235-249 | the result is a GLM table with the raw index and row count; ShortWave, AirTemp, RelHum and WindSpeed are the raw columns |
| HistoricalAdapter.ConvertHourlyRows | glm_met/openmeteo/historical.py:237-248 | row by row: rewritten stamp, cloud cover / 100, precipitation × 24 / 1000, the other four values copied |
| HistoricalAdapter.ConvertToGlm | glm_met/openmeteo/historical.py:234-251 | hourly: the stored table is the hourly conversion of the fetched table, a GLM table with the raw row count, and all else is kept; daily: nothing changes |
| HistoricalAdapter.ConvertedCloudIsFraction | glm_met/openmeteo/historical.py:243 | fetched cloud cover in [0, 100] lands in [0, 1] |
| HistoricalAdapter.WriteGlmMet | glm_met/openmeteo/historical.py:270-299 | hourly: hourly_units is removed from the metadata and exported with the table in met_glm.zip, or the table alone goes under fname; daily: nothing happens |
| HistoricalAdapter.SecondWriteFails | glm_met/openmeteo/historical.py:271 | after one hourly write, the precondition of another fails: hourly_units is gone |
| ClimateAdapter.New | glm_met/openmeteo/climate_change.py:58-98 | the constructor stores its arguments; when they are omitted, the models are all seven and the variables the GLM default list |
| ClimateAdapter.DefaultRequest | glm_met/openmeteo/climate_change.py:121-135 | an adapter built with the defaults sends every model and the default variables as lists |
| ClimateAdapter.StrList | glm_met/openmeteo/climate_change.py:126-127 | a string list as a query list, item for item |
| ClimateAdapter.Request | glm_met/openmeteo/climate_change.py:121-133 | the query has exactly its seven built-in keys plus the caller's; variables and models go out as lists; windspeed_unit is "ms" unless overridden |
| ClimateAdapter.RequestListsRoundTrip | glm_met/openmeteo/climate_change.py:126-127 | the list values name each variable and model, in order |
| ClimateAdapter.GetVariables | glm_met/openmeteo/climate_change.py:135-140 | the daily member becomes the table; the metadata is the rest of the response; nothing else changes |
| ClimateAdapter.BasesAreDefaults | glm_met/openmeteo/settings.py:15-25 | every variable the conversion reads is among the default variables |
| ClimateAdapter.ModelColumn | glm_met/openmeteo/climate_change.py:203-210 | the column name is base, then "_", then the model |
| ClimateAdapter.ModelColumnInjective | glm_met/openmeteo/climate_change.py:203-210 | different models never share a column |
| ClimateAdapter.ConvertModel | glm_met/openmeteo/climate_change.py:201-213 | model m's table is a GLM table with the raw index; its time is the raw time unchanged; each column comes from `<base>_m` |
| ClimateAdapter.ConvertModelRows | glm_met/openmeteo/climate_change.py:202-210 | row by row: cloud cover / 100, precipitation / 1000 with no hourly factor, the rest copied, missing staying missing |
| ClimateAdapter.ModelTableReadsOnlyItsColumns | glm_met/openmeteo/climate_change.py:200-213 | model m's table depends only on the index, the time column and m's six columns |
| ClimateAdapter.ModelTables | glm_met/openmeteo/climate_change.py:198-213 | the loop yields a mapping whose keys are exactly the models, each to its own conversion |
| ClimateAdapter.ConvertToGlm | glm_met/openmeteo/climate_change.py:198-215 | one GLM table per configured model and no other key; each shares the raw time column and row count |
| ClimateAdapter.MemberName | glm_met/openmeteo/climate_change.py:238 | the archive member for a model is "met_" + model + ".csv" |
| ClimateAdapter.MemberNameRoundTrip | glm_met/openmeteo/climate_change.py:238 | the model can be read back from its member name |
| ClimateAdapter.WriteGlmMet | glm_met/openmeteo/climate_change.py:233-246 | met_glm.zip has one member per model, in model order, holding that model's table |
| ClimateAdapter.ArchiveHoldsEveryModel | glm_met/openmeteo/climate_change.py:235-246 | looking up met_m.csv in the archive finds model m's table for every configured m |
| ClimateAdapter.ArchiveMembersNameModels | glm_met/openmeteo/climate_change.py:235-240 | the i-th member's name leads back to the i-th model |
| PowerAdapter.CompactDate | glm_met/nasa_power/nasa_power.py:108-109 | the compact date has no dash |
| PowerAdapter.CompactDateIdempotent | glm_met/nasa_power/nasa_power.py:108-109 | compacting an already compact date changes nothing |
| PowerAdapter.CompactIsoDate | glm_met/nasa_power/nasa_power.py:108-109 | YYYY-MM-DD becomes YYYYMMDD |
| PowerAdapter.CompactDateExamples | glm_met/nasa_power/nasa_power.py:108-109 | 2022-01-01 and 20220101 both become 20220101 |
| PowerAdapter.New | glm_met/nasa_power/nasa_power.py:44-53 | the constructor stores its arguments; when they are omitted, the timezone is LST and the community SB |
| PowerAdapter.DefaultRequest | glm_met/nasa_power/nasa_power.py:101-110 | an adapter built with the defaults requests the default parameters, joined by commas, with timezone LST and community SB |
| PowerAdapter.Request | glm_met/nasa_power/nasa_power.py:101-118 | the query has exactly the eight built-in keys plus the caller's; it sends compact dates, joined parameters, location, timezone, community and "JSON" unless overridden |
| PowerAdapter.RequestIgnoresDashes | glm_met/nasa_power/nasa_power.py:108-109 | dates given with or without dashes make the same query |
| PowerAdapter.DefaultParametersRequested | glm_met/nasa_power/nasa_power.py:102-110 | with no parameter list, the query names exactly the default parameters |
| PowerAdapter.GetVariables | glm_met/nasa_power/nasa_power.py:120-128 | the metadata keeps exactly those of header and parameters the response has, with their values; the table comes from properties.parameter, labelled by hour |
| PowerAdapter.RawExportDropsHours | glm_met/nasa_power/nasa_power.py:122-143 | the raw archive of a fetch keeps the metadata and the parameter columns, but its rows come back numbered: the hour labels, which are the table's index, are not written |
| PowerAdapter.HourKeyRange | glm_met/nasa_power/nasa_power.py:185-187 | keys outside pandas' Timestamp range are refused: year 0000, years before 1677 and the hours before 1677-09-21 01:00; the last accepted hour is 2262-04-11 23:00 |
| PowerAdapter.ExpandStamp | glm_met/nasa_power/nasa_power.py:185-187 | an hour key expands to a 19-character stamp |
| PowerAdapter.ExpandStampRoundTrip | glm_met/nasa_power/nasa_power.py:185-187 | YYYYMMDDHH becomes a YYYY-MM-DD HH:00:00 stamp whose key is the original |
| PowerAdapter.CompactStampRoundTrip | glm_met/nasa_power/nasa_power.py:185-187 | every whole-hour GLM stamp is the expansion of its key |
| PowerAdapter.ExpandStampExample | glm_met/nasa_power/nasa_power.py:185-187 | 2022010105 becomes 2022-01-01 05:00:00 |
| PowerAdapter.PowerDefaultConverted | glm_met/nasa_power/settings.py:4-11 | every default parameter is a column the conversion reads |
| PowerAdapter.HourTimes | glm_met/nasa_power/nasa_power.py:185-187 | one text stamp per row label, in order |
| PowerAdapter.ConvertTable | glm_met/nasa_power/nasa_power.py:182-195 | a GLM table with the raw row count and a fresh positional index; ShortWave, AirTemp, RelHum and WindSpeed are the raw parameter columns |
| PowerAdapter.ConvertTableRows | glm_met/nasa_power/nasa_power.py:185-193 | row by row: the expanded hour label, CLOUD_AMT / 100, PRECTOTCORR × 24 / 1000, the others copied |
| PowerAdapter.ConvertedTimesRecoverLabels | glm_met/nasa_power/nasa_power.py:185-187 | each written time is a whole-hour stamp whose key is its row's label |
| PowerAdapter.ConvertToGlm | glm_met/nasa_power/nasa_power.py:182-197 | the stored table is the conversion of the fetched table, a GLM table with the raw row count; everything else is kept |
| PowerAdapter.WriteGlmMet | glm_met/nasa_power/nasa_power.py:199-240 | the archive holds met.csv with the table and met_glm_metadata.json with the whole metadata; without zip, the table goes alone under fname; the adapter is not changed |
| SiloAdapter.New | glm_met/silo/silo.py:66-108 | the constructor stores location, dates, met_data, comment, username and api as given, and the format is csv whatever the caller wants |
| SiloAdapter.Payload | glm_met/silo/silo.py:126-146 | the built-in payload has lon and lat or station, dates, format, username and the fixed password, plus the comment when the format is json or csv |
| SiloAdapter.Request | glm_met/silo/silo.py:122-199 | a query exists exactly when the api and the location type match; it goes to the mode's endpoint with the payload merged under the caller's settings |
| SiloAdapter.PayloadSent | glm_met/silo/silo.py:126-150 | the merged query has exactly the payload's keys plus the caller's; each payload value goes out unless the caller overrides it |
| SiloAdapter.ConstructedSendsComment | glm_met/silo/silo.py:102-135 | a constructed adapter always sends its comment (the format is csv), so the comment-less payloads are never built |
| SiloAdapter.AfterEqualsOfLine | glm_met/silo/silo.py:208-209 | `split("= ")[1]` of "head= value" is value when neither part has an "=" |
| SiloAdapter.ElevationOfLine | glm_met/silo/silo.py:158 | the elevation is the text between the first "= " and the following " m" |
| SiloAdapter.NameKeepsLeadingSpace | glm_met/silo/silo.py:210 | the station name, split on "=" alone, keeps the space after the "=" |
| SiloAdapter.GridMetadata | glm_met/silo/silo.py:156-168 | grid metadata has the eight listed keys in order; it echoes location, dates, api, format and comment, and takes the elevation from line 0 |
| SiloAdapter.StationMetadata | glm_met/silo/silo.py:205-223 | station metadata has the ten listed keys in order: station; name from line 0; latitude from line 1; longitude from line 2; elevation from line 3 |
| SiloAdapter.StationDict | glm_met/silo/silo.py:212-223 | the station metadata dict has its ten keys in the source's order, each holding the value written for it |
| SiloAdapter.StationMetadataEchoes | glm_met/silo/silo.py:212-223 | station metadata echoes dates, api, format and comment |
| SiloAdapter.GetVariables | glm_met/silo/silo.py:122-226 | on a mode/location mismatch nothing changes; otherwise the metadata is parsed and the metadata column is dropped, with every other column and the rows kept |
| SiloAdapter.FetchIffQuery | glm_met/silo/silo.py:122-175 | a fetch fills met_data exactly when a query is sent |
| SiloAdapter.ConvertToGlm | glm_met/silo/silo.py:259-261 | does nothing |
| SiloAdapter.WriteGlmMet | glm_met/silo/silo.py:263-265 | writes nothing |

## Behaviour of the code

- A SILO mode/location mismatch or an unknown `api` string is a silent
  no-op (glm_met/silo/silo.py:122-175).
- SILO's `convert_to_glm` and `write_glm_met` do nothing
  (glm_met/silo/silo.py:259-265).
- Misuse raises a plain Python `KeyError`, `IndexError` or
  `AttributeError`, never a typed error. Examples: a response without the
  expected member, a missing model column, or writing before converting.
  Misuse is therefore modelled as a precondition.
- The historical adapter's pop of `hourly_units` is destructive, as in the
  code: `SecondWriteFails`.
- The SILO docstring calls the grid mode "drill_down", but the code tests
  for "data_drill". The model uses "data_drill".

## Left out

- HTTP requests and pandas' JSON/CSV parsing: the parsed response is an input, and the endpoint URLs are named rather than spelled, because the SILO URLs are in a settings file not part of this model.
- Zip files, temporary directories, `to_csv` and `json.dump`: an export is a list of named file contents, and the path argument is dropped.
- `write_met` is the same in all four adapters, so it is modelled once as `Met.WriteMet` on the raw container.
- Floating point: values are exact reals, so rounding in `/ 100`, `/ 1000` and `* 24` is not modelled.
- The query an adapter sends and the response it gets back are not linked: the provider is outside the model.
- Python's `requests` drops query parameters whose value is None; the model keeps a SILO comment of None as a null value.
- The NASA POWER metadata keeps the response's key order; Python builds it by iterating a set, in no fixed order.
- PowerAdapter.GetVariables: requires the inner parameter dicts to have the same hour keys in the same order; pandas would align differing keys with NaN.
- PowerAdapter.ExpandStamp: accepts days 1 to 31 in every month; `pd.to_datetime` also rejects days past the end of the month (such as February 30). The year is bounded to the Timestamp range (PowerAdapter.HourKeyRange).
- Met.RawExportRoundTrip: gives back the columns, their order and cells, and the metadata, but not the table's own index, because every `to_csv` call passes `index=False`. For NASA POWER this index holds the hours, so met_raw.csv carries no timestamps (PowerAdapter.RawExportDropsHours).
- pandas renders a datetime column whose every value is midnight without the time part; the NASA POWER time column is modelled as always carrying HH:00:00.
- Type checks on inputs beyond what the functions read (a tuple location for open-meteo and NASA POWER, string dates): the datatypes fix these types.
- Only the tuple and int locations of SILO are modelled: a location of any other type would also make get_variables do nothing.
- glm_met/glm_met.py is an abstract base class with no behaviour, and test.py is a network script; neither is modelled.
