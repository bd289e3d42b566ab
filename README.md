# pg8000 core, modelled in Dafny

pg8000 is a pure-Python PostgreSQL driver. This project models its core, `pg8000/core.py` and
`pg8000/converters.py`, and proves properties of that model:

- the frontend/backend protocol framing (`create_message` and the 5-byte message header);
- the messages the driver writes: the startup packet, Parse, Bind and Password;
- the backend messages it reads: RowDescription, DataRow, CommandComplete, ReadyForQuery,
  NotificationResponse, ParameterStatus, ErrorResponse/NoticeResponse, BackendKeyData and
  Authentication;
- the message loop `handle_messages` and every handler it dispatches to;
- the `Connection` state: the transaction flag, the notification, notice and parameter-status
  deques of at most 100 entries, and the prepared-statement cache with its numbering, its
  eviction and its clearing on ALTER/CREATE;
- `execute`, `executemany`, `commit` and `rollback`;
- the `Cursor` row buffer: `fetchone`, `fetchmany`, `fetchall`, `__next__`, `description` and
  `rowcount`;
- `convert_paramstyle` for all five DB-API parameter styles, and `make_args`;
- parameter typing (`make_params`, `inspect_int`, `array_inspect` and the array helpers);
- text-format array output (`_walk_array`) and input (`_parse_array`);
- the text converters for text, bool, int and bytea;
- the `PGInterval` class: `from_str`, `__repr__`, `__str__`, `normalize` and `__eq__`.

The model is organised as follows.

- **Pure code** (parsers, encoders, converters) is written as datatypes and functions. Each has
  lemmas that state round trips, iff conditions and pointwise meanings.
- **Loops in the source** are `method`s with `while` loops. Each is proved equal to a
  specification function (`ensures r == Spec(..)`):
  - `convert_paramstyle`
  - `_parse_array`
  - `make_params`
  - `array_inspect`
  - `PGInterval.from_str`
  - the DataRow and RowDescription readers
  - the Bind writer
  - the startup writer
- **The source's mutable objects** are classes:
  - `Cursors.Cursor` has fields for the row buffer, `arraysize`, the statement and the row count.
  - `Connections.Connection` has fields for the transaction flag, the deques, the caches,
    `error` and `out`, the replies written to authentication requests.
  - Each method states its new state with `Snapshot()`. The snapshot equals the outcome of a
    specification function in module `Sessions`.
  - `Sessions` proves the invariant `Good` (bounded deques and a bounded, well-numbered
    statement cache, whose statement names are pairwise distinct). `Connection.Valid()` is that
    invariant, and every method preserves it.

Byte strings are `seq<byte>` with `byte = x: int | 0 <= x < 256`. Integers on the wire are packed
and unpacked as big-endian two's complement (`Bytes.PackInt32` and `Bytes.UnpackInt32`). Python
`int` is unbounded, like Dafny's `int`, so no wrap-around is modelled except where the source
packs a value.

The source performs I/O, which the model replaces with values:

- The socket becomes an `incoming: seq<byte>` buffer holding the server's reply. Of the bytes
  the driver writes, only the Password replies to authentication requests are appended to the
  connection's `out` field. The startup packet and the Parse, Describe, Bind, Execute and Sync
  messages that `execute` sends are not recorded there; Frontend and Startup build them on their
  own.
- `os.getpid()` is the `pid` parameter of the connection.
- `hashlib.md5(..).hexdigest()` is the `md5hex` function parameter.

## Model

| member | source | states |
|---|---|---|
| Wire.CreateMessage | pg8000/core.py:515-516 | the message is the code, then a 4-byte length, then the payload |
| Wire.FramingRoundTrip | pg8000/core.py:1359-1364 | reading a created message followed by any bytes gives back the code, the payload and the remaining bytes |
| Wire.FramingCanonical | pg8000/core.py:1362-1364 | every frame the reader accepts is exactly a created message followed by the rest |
| Bytes.Int32RoundTrip | pg8000/core.py:26-33 | `i_unpack` of `i_pack(v)` at any offset gives `v` for every 32-bit value |
| Bytes.Int32Canonical | pg8000/core.py:26-33 | packing an unpacked 4-byte string gives the same bytes |
| Bytes.Int16RoundTrip | pg8000/core.py:26-33 | `h_unpack` of `h_pack(v)` gives `v` for every 16-bit value |
| Bytes.Int16Canonical | pg8000/core.py:26-33 | packing an unpacked 2-byte string gives the same bytes |
| Numerals.ParseInt | pg8000/converters.py:177-178 | `int(s)` succeeds iff `s` is an optional sign followed by at least one decimal digit |
| Numerals.IntToString | pg8000/converters.py:78-79 | `str(i)` is non-empty and starts with `-` iff `i` is negative |
| Numerals.IntRoundTrip | pg8000/converters.py:177-178 | `int(str(i)) == i` |
| Numerals.CanonicalRoundTrip | pg8000/converters.py:78-79 | `str(int(s)) == s` for every canonical numeral |
| Text.SplitJoin | pg8000/converters.py:298 | `str.split()` of words joined by spaces gives the words back |
| Text.SplitOnJoinOn | pg8000/core.py:1326 | `bytes.split(sep)` of parts joined by `sep` gives the parts back when no part contains `sep` |
| Utf8.DecodeEncode | pg8000/core.py:583 | decoding the UTF-8 encoding of a string gives the string |
| Utf8.EncodeDecode | pg8000/core.py:583 | encoding a successfully decoded byte string gives the same bytes |
| Utf8.AsciiDecode | pg8000/core.py:1392-1394 | ASCII decoding succeeds iff every byte is below 0x80 |
| Utf8.AsciiIsUtf8 | pg8000/core.py:1392-1394 | ASCII decoding agrees with UTF-8 decoding on ASCII bytes |
| Encodings.Lower | pg8000/core.py:1393 | lower-casing keeps the length, leaves no ASCII capital, turns each capital into the letter 32 code points above and keeps every other character |
| Encodings.LowerIdempotent | pg8000/core.py:1393 | lower-casing twice is lower-casing once |
| Encodings.DecodeEncode | pg8000/core.py:1627-1673 | for each modelled codec, decoding the encoding of a string gives the string |
| Encodings.Utf8Names | pg8000/core.py:1627-1673 | the server names UNICODE, SQL_ASCII and LATIN1 select the utf8, ascii and latin-1 codecs |
| Encodings.Utf8CodecNames | pg8000/core.py:583 | both `utf8` and `utf-8` select the UTF-8 codec |
| Encodings.OtherCodecNames | pg8000/core.py:1627-1673 | `ascii` and `iso8859-1` select the ASCII and Latin-1 codecs |
| Converters.IntOut | pg8000/converters.py:78-79 | the sent text of an int parses back to the same int |
| Converters.IntCodecRoundTrip | pg8000/converters.py:78-79 | `int_in(int_out(v)) == v`, and `int_out(int_in(s)) == s` for canonical `s` (also pg8000/converters.py:177-178) |
| Converters.BoolCodecsDisagree | pg8000/converters.py:46-47 | `bool_out` writes `true`/`false` but `bool_in` only accepts `t`, so `bool_in(bool_out(v))` is always false (also pg8000/converters.py:169-170) |
| Converters.BytesOut | pg8000/converters.py:153-154 | the output is `\x` followed by two lower-case hex digits per byte |
| Converters.HexRoundTrip | pg8000/converters.py:153-158 | `fromhex(hex(v)) == v` |
| Converters.LowerHexRoundTrip | pg8000/converters.py:153-158 | `hex(fromhex(s)) == s` for lower-case hex text |
| Converters.ByteaRoundTrip | pg8000/converters.py:153-158 | `bytea_in(bytes_out(v)) == v` |
| Converters.ByteaCanonical | pg8000/converters.py:153-158 | `bytes_out(bytea_in(s)) == s` for every canonical `\x` text |
| InAdapters.SentValueReadBack | pg8000/core.py:681-754 | a scalar that has a reader reads back to itself: its send function's text, given to the input function of the oid `make_params` chose, gives that value back |
| InAdapters.BytesReadBack | pg8000/core.py:681-723 | the bytea reader reads `bytes_out(d)` back as `d` |
| InAdapters.IntReadBack | pg8000/core.py:681-723 | the int reader reads `int_out(i)` back as `i` |
| InAdapters.BoolReadsServerForm | pg8000/core.py:681-754 | a bool is sent with oid 16; the server's `t`/`f` read back correctly, but the sent `true` reads back as false |
| InAdapters.ArrayTypesMatchElements | pg8000/core.py:1611-1617 | each array oid is read by the array reader of its element type |
| Values.InspectInt | pg8000/core.py:1076-1083 | the oid is 21, 23, 20 or 1700 exactly when the value lies strictly inside the int2, int4 or int8 bounds, or outside all of them; only 1700 is sent as numeric |
| Values.ScalarParam | pg8000/core.py:1085-1121 | a scalar gets a parameter type unless it is of an unsupported Python type |
| Values.Flatten | pg8000/core.py:1713-1719 | the flattened list holds no lists |
| Values.FlattenAppend | pg8000/core.py:1713-1719 | flattening a concatenation is the concatenation of the flattenings |
| Values.FlattenLeaf | pg8000/core.py:1713-1719 | a one-element list holding a non-list flattens to itself |
| Values.FlattenNested | pg8000/core.py:1713-1719 | a one-element list holding a list flattens to the flattening of that list |
| Values.FindFirstElement | pg8000/core.py:1706-1710 | the result is the first non-None leaf; it is None iff every leaf is None |
| Values.HasNullFlatten | pg8000/core.py:1745-1749 | `array_has_null` holds iff None is among the flattened leaves |
| Values.DimLengths | pg8000/core.py:1752-1759 | the first dimension is the outer length |
| Values.DimLengthsOfChecked | pg8000/core.py:1752-1759 | for an array whose dimensions are consistent, `array_dim_lengths` is the outer length followed by the checked inner dimensions |
| Values.CheckDimensionsFixed | pg8000/core.py:1722-1742 | corrected dimension check (see Findings): fails only with the dimensions error |
| Values.FixedSound | pg8000/core.py:1722-1742 | an array the corrected check accepts has the returned shape at every level |
| Values.FixedComplete | pg8000/core.py:1722-1742 | every non-empty array of a canonical rectangular shape is accepted with that shape |
| Values.StringSiblingAccepted | pg8000/core.py:1722-1742 | as written, `[["a","b"],"cd"]` passes with dimensions `[2]` although it has no rectangular shape |
| Values.ScalarSiblingTypeError | pg8000/core.py:1722-1742 | as written, `[[1],2]` fails with TypeError rather than the dimensions error |
| Values.WalkRejectsForeignLeaf | pg8000/core.py:1676-1703 | `_walk_array` fails iff some non-None leaf is not of the element type, and then with ArrayContentNotHomogenous |
| Values.FlagsMeaning | pg8000/core.py:1427-1455 | the int2/int4/int8 flags hold iff every leaf lies within that width's bounds; the scan fails iff some leaf cannot be compared |
| Values.ArrayInspect | pg8000/core.py:1413-1477 | the loop over the leaves computes the array parameter type of the specification |
| Values.ArrayInspectSpec | pg8000/core.py:1413-1477 | a typed array is always sent through `send_array` |
| Values.ArrayWidthMatchesScalar | pg8000/core.py:1427-1455 | a one-integer array gets the array type of the width `inspect_int` gives that integer; it fails exactly when that width is numeric (also pg8000/core.py:1076-1083) |
| Values.IntArrayWidth | pg8000/core.py:1427-1455 | an int-typed array is int2[], int4[] or int8[] iff all leaves fit that width and not the narrower one; TypeError iff a leaf cannot be compared |
| Values.AllNoneIsTextArray | pg8000/core.py:1416-1420 | an array of Nones only is typed as text[] (oid 1009) |
| Values.MixedArrayTypedByFirst | pg8000/core.py:1416-1455 | `[1, 3.1]` is typed by its first element as int2[] |
| Values.MixedArrayNotHomogenous | pg8000/core.py:1473-1475 | sending `[1, 3.1]` as int2[] fails with ArrayContentNotHomogenous |
| Values.SendIntervalReadsBack | pg8000/converters.py:114-115 | an interval is sent as `str(v)`: this raises AttributeError iff millennia is set, and otherwise `from_str` reads the text back as the same interval |
| Values.MakeParams | pg8000/core.py:1085-1121 | the loop over the values computes the parameter list of the specification |
| Values.MakeParamsSpec | pg8000/core.py:1085-1121 | a successful result has one parameter per value |
| Values.MakeParamsPointwise | pg8000/core.py:1085-1121 | `make_params` succeeds iff each value has a parameter type, and then the k-th entry is the k-th value's type |
| ArrayParse.ParseArray | pg8000/converters.py:487-528 | the character loop of `_parse_array` computes the specification `Parse` |
| ArrayParse.NullIsNotAdapted | pg8000/converters.py:492-496 | an unquoted `NULL` ended by `,` or `}` adds None to the open list without calling the adapter; a quoted `"NULL"` goes through the adapter like any text (also pg8000/converters.py:516-518) |
| ArrayParse.ParseUnbalanced | pg8000/converters.py:505-528 | an empty string, a stray `}` and `{}}{` fail with an index error |
| ArrayParse.ParseUnclosed | pg8000/converters.py:528 | a missing final `}` is accepted: `{{}` reads as `[[]]` |
| ArrayRoundTrip.TextArrayRoundTrip | pg8000/core.py:1676-1703 | `_parse_array(_walk_array(a))` gives the nested text array `a` back, with None for NULL (also pg8000/converters.py:487-528) |
| ArrayRoundTrip.EscapePlain | pg8000/core.py:1685-1696 | text with no backslash after escaping is unchanged and holds no double quote |
| ArrayRoundTrip.QuotedRun | pg8000/core.py:1685-1696 | a quoted, escaped element reads back as the original text (also pg8000/converters.py:509-511, pg8000/converters.py:516-526) |
| ArrayRoundTrip.UnquotedRun | pg8000/core.py:1685-1696 | an element written without quotes reads back as the original text (also pg8000/converters.py:492-498, pg8000/converters.py:512-514) |
| Interval.FromStr | pg8000/converters.py:294-321 | the token loop of `from_str` computes the specification `FromStrSpec` |
| Interval.TokenStep | pg8000/converters.py:315-319 | a non-number word must be a unit name, and the pending count is stored under that unit; any other word fails with KeyError |
| Interval.ClockToken | pg8000/converters.py:299-313 | an `h:m:s` token is read iff it has three integer parts; hours, minutes and seconds take the non-zero parts, a zero part leaves its unit as it was, and no other unit changes |
| Interval.ClockFields | pg8000/converters.py:299-313 | `"h:m:s"` sets hours, minutes and seconds to the non-zero parts only |
| Interval.CountAndUnit | pg8000/converters.py:315-319 | `"n unit"` sets that unit to `n` |
| Interval.NamesAreUnitWords | pg8000/converters.py:263-291 | each unit's printed name maps back to that unit in the unit table |
| Interval.Set | pg8000/converters.py:323-337 | setting one unit changes that unit and no other |
| Interval.Repr | pg8000/converters.py:339-357 | the loop of `__repr__` computes the specification `ReprText` |
| Interval.ReprIsWrappedStr | pg8000/converters.py:339-405 | `repr` is `<PGInterval` followed by ` ` and `str`, if any unit is set, then `>` |
| Interval.StrRoundTrip | pg8000/converters.py:359-405 | `from_str(str(iv)) == iv` for every interval (corrected `__str__`) (also pg8000/converters.py:294-321) |
| Interval.StrAsWrittenFails | pg8000/converters.py:361-363 | as written, `__str__` fails whenever millennia is set and works otherwise |
| Interval.TotalsOfNormalize | pg8000/converters.py:407-430 | `normalize` gives the weighted sums of all units in months, days and seconds |
| Interval.EqMeansEqualTotals | pg8000/converters.py:432-439 | two intervals are equal iff their normalized months, days and seconds are equal; never equal to a non-interval |
| Interval.EqProperties | pg8000/converters.py:432-439 | equality ignores millennia, centuries and decades, is symmetric and transitive, and 1 year equals 12 months |
| Paramstyle.ConvertParamstyle | pg8000/core.py:79-214 | the character loop computes the specification `Convert` |
| Paramstyle.ScanChar | pg8000/core.py:97-205 | one iteration of the loop body performs the specification step `Step` |
| Paramstyle.OutsideChar | pg8000/core.py:103-149 | the OUTSIDE branch performs `OutsideStep` |
| Paramstyle.ParamNameChar | pg8000/core.py:173-198 | the IN_PARAM_NAME branch performs `ParamNameStep` |
| Paramstyle.ResolveName | pg8000/core.py:174-196 | ending a name appends it to the placeholders once and emits its `$k` |
| Paramstyle.Step | pg8000/core.py:97-205 | a step keeps the scanner valid, adds at most one name and switches style only to format |
| Paramstyle.MakeArgs | pg8000/core.py:207-212 | positional styles pass the arguments through; named and pyformat pick each placeholder's value from the mapping and fail iff a name is missing |
| Paramstyle.IndexOf | pg8000/core.py:178-183 | the index is the first occurrence; None iff absent |
| Paramstyle.RunErrSticky | pg8000/core.py:97-205 | once the loop raises, the result is that error |
| ParamstyleProps.NamedConversion | pg8000/core.py:126-183 | named style: the query is the rendered output and the placeholders are the names in order of first appearance; each `:name` becomes `$k` of its name, and the arguments are picked accordingly |
| ParamstyleProps.NamedMarkers | pg8000/core.py:174-183 | the k-th marker is one plus the index of the k-th name among the distinct names |
| ParamstyleProps.NamedArgs | pg8000/core.py:207-212 | named arguments succeed iff every name is in the mapping, and then `$k` receives its name's value |
| ParamstyleProps.PositionalConversion | pg8000/core.py:117-147 | qmark and format: no placeholders, the markers are `$1..$n` in order, and the arguments are passed through |
| ParamstyleProps.PositionalStep | pg8000/core.py:117-198 | each character outside quotes and comments emits its chunk: `?`/`%s` becomes `$k`, `%%` becomes `%`, other text is copied; any other `%` fails with UnsupportedPercent |
| ParamstyleProps.FormatPending | pg8000/core.py:134-147 | a pending parameter or escape follows exactly a `%s` or `%%` |
| ParamstyleProps.NumericConversion | pg8000/core.py:119-125 | numeric: the query keeps its length, and a lone `:` (not after another `:`, not before `:` or `=`) outside quotes and comments becomes `$`; the arguments pass through |
| ParamstyleProps.NumericDollarAt | pg8000/core.py:119-125 | a character changes iff it is such a `:`, and then it becomes `$` |
| ParamstyleProps.PyFormatConversion | pg8000/core.py:131-196 | pyformat: each `%(name)s` becomes `$k` numbered by first appearance, and the arguments are picked as for named |
| ParamstyleProps.StyleStays | pg8000/core.py:134-147 | only the pyformat style ever switches (to format) |
| ParamstyleProps.RunExtends | pg8000/core.py:97-205 | the output is only ever appended to |
| ParamstyleProps.KeptSpan | pg8000/core.py:151-203 | characters the scanner keeps are copied to the output unchanged |
| ParamstyleProps.SingleQuoteSpan | pg8000/core.py:151-160 | the body of a single-quoted literal, made of non-quote characters and doubled quotes `''`, is copied unchanged |
| Frontend.StatementNameParts | pg8000/core.py:1180-1182 | the name splits on `_` into `pg8000`, `statement`, the pid and the number |
| Frontend.StatementNameInjective | pg8000/core.py:1180-1182 | different (pid, number) pairs give different statement names |
| Frontend.StatementNameBinInjective | pg8000/core.py:1180-1182 | with one pid, different numbers give different encoded names |
| Frontend.WriteParse | pg8000/core.py:1199-1212 | the Parse payload writer computes `ParsePayload` |
| Frontend.ParseRoundTrip | pg8000/core.py:1199-1212 | reading a Parse payload gives back the name, the query and the oids |
| Frontend.ParseReadBack | pg8000/core.py:1180-1212 | the Parse payload of a statement reads back as its name, its encoded query and its parameter oids |
| Frontend.WriteValue | pg8000/core.py:1281-1292 | one Bind value is -1 for None, otherwise its length and its encoded text |
| Frontend.WriteBind | pg8000/core.py:1247-1292 | the Bind writer computes `BindPayload` |
| Frontend.BindFoldPointwise | pg8000/core.py:1281-1292 | the Bind values succeed iff each value converts, and the k-th field is the k-th value's encoding |
| Frontend.BindFoldFails | pg8000/core.py:1281-1292 | the first value that fails to convert makes the whole Bind fail with its error |
| Frontend.BindReadBack | pg8000/core.py:1247-1292 | reading the Bind body after the name gives back its count and each field |
| RowDescriptions.ReadColumnDescription | pg8000/core.py:1123-1136 | one column of the loop computes `DescStep` |
| RowDescriptions.HandleRowDescription | pg8000/core.py:1123-1136 | the loop computes `RowDescription` |
| RowDescriptions.RowDescription | pg8000/core.py:1123-1136 | a successful parse has as many columns as the count says (none for a negative count) |
| RowDescriptions.RowDescriptionRoundTrip | pg8000/core.py:1123-1136 | decoding an encoded description gives the same columns |
| RowDescriptions.MissingNulTruncated | pg8000/core.py:1127-1129 | a column name without its terminator fails as truncated |
| DataRows.ReadColumn | pg8000/core.py:1342-1357 | one column of the loop computes `RowStep`: -1 is None, any other length converts Python's slice `data[idx:idx + vlen]` and moves the offset by that length |
| DataRows.Slice | pg8000/core.py:1353-1354 | `data[start:stop]` with Python's bounds: cut at the end, a negative stop counted from the end, empty when the stop is not after the start |
| DataRows.NegativeLengthReadsOn | pg8000/core.py:1348-1355 | a column length below -1 is not an error: the column converts an empty slice and the offset steps back by the length |
| DataRows.ReadRow | pg8000/core.py:1342-1357 | the column loop computes `RowOf` |
| DataRows.HandleDataRow | pg8000/core.py:1342-1357 | the handler computes `DataRow` |
| DataRows.DataRowRoundTrip | pg8000/core.py:1342-1357 | decoding an encoded row gives each column through its converter, with None for NULL |
| DataRows.TextColumnsReadBack | pg8000/core.py:1342-1357 | text columns read back as the sent strings (also pg8000/converters.py:42-43) |
| DataRows.RowFails | pg8000/core.py:1342-1357 | the first failing column decides the error of the row |
| Startup.NormaliseParams | pg8000/core.py:597-612 | the loop over the parameters computes `Normalised` |
| Startup.InitParamsMeaning | pg8000/core.py:593-612 | a None user is refused; a parameter of the wrong type is refused, the first in source order winning; otherwise the present parameters are kept in order |
| Startup.WriteStartup | pg8000/core.py:791-799 | the packet writer computes `StartupPacket` |
| Startup.StartupRoundTrip | pg8000/core.py:791-799 | reading the startup packet gives its length, the protocol version 196608 and every key/value pair |
| Backend.NotificationRoundTrip | pg8000/core.py:901-917 | a NotificationResponse reads as its pid and channel |
| Backend.ParameterStatusRoundTrip | pg8000/core.py:1388-1391 | a ParameterStatus reads as its key and value |
| Backend.NewClientEncoding | pg8000/core.py:1392-1394 | the reported encoding fails iff it is not ASCII; otherwise it is the driver's name for the lower-cased server name |
| Backend.DecodePairs | pg8000/core.py:817-832 | decoding succeeds iff every key and value decodes, and then gives each pair decoded |
| Backend.ErrorResponseRefused | pg8000/core.py:817-832 | an error response without a `C` field raises KeyError |
| Backend.ErrorResponseClass | pg8000/core.py:817-832 | the error class comes from the last `C` field, and all fields are kept |
| Backend.ErrorFieldsRoundTrip | pg8000/core.py:817-832 | the fields read from an ErrorResponse are the fields sent |
| Backend.NoticeRoundTrip | pg8000/core.py:1384-1386 | a NoticeResponse reads as the map of its fields (with the empty key of the terminator) |
| Backend.CompletionOfTag | pg8000/core.py:1325-1340 | the tag fails iff it is a counted command whose last word is not an integer; the count is taken only for counted commands; caches are cleared iff ALTER or CREATE |
| Backend.RowCountIsTotal | pg8000/core.py:1329-1333 | from -1, the row count after several completions is the sum of their counts |
| Backend.ManyRowCountMeaning | pg8000/core.py:360-380 | `executemany`'s row count is -1 iff some execution's is, and otherwise is at least each of them |
| Backend.Push | pg8000/core.py:587-589 | a deque push keeps at most 100 entries and the new one last; below the bound it appends |
| Backend.PushKeepsNewest | pg8000/core.py:587-589 | pushing many values keeps the newest 100 |
| Backend.AuthRefusals | pg8000/core.py:976-1061 | authentication raises InterfaceError iff a password is needed and missing or the method is not handled |
| Backend.AuthUnsupported | pg8000/core.py:1054-1057 | codes 2, 4 and 6-9 raise "Authentication method n not supported by pg8000." |
| Backend.AuthOkAndMalformed | pg8000/core.py:992-1003 | code 0 is success; a short md5 request is malformed |
| Backend.CleartextReadBack | pg8000/core.py:994-1000 | the cleartext reply is a Password message holding the password, then Flush |
| Backend.Md5ReadBack | pg8000/core.py:1001-1021 | the md5 reply holds `md5` followed by md5(md5(password + user) + salt), then Flush |
| Cursors.Exhausted | pg8000/core.py:469-478 | with an empty buffer, no statement raises "A query hasn't been issued.", an empty row description raises "no result set", and otherwise iteration just stops |
| Cursors.Cursor.constructor | pg8000/core.py:273-282 | a new cursor has arraysize 1, no statement, row count -1 and no rows |
| Cursors.Cursor.Description | pg8000/core.py:301-311 | the description is None iff there is no statement or no columns; otherwise one (name, type oid) per column |
| Cursors.Cursor.Next | pg8000/core.py:382-399 | the first buffered row is returned and removed; an empty buffer gives the error or None (also pg8000/core.py:469-478) |
| Cursors.Cursor.FetchMany | pg8000/core.py:401-422 | `fetchmany(n)` (or `arraysize`) returns and removes the first `n` rows in order; a negative size fails; too few rows give the error |
| Cursors.Cursor.FetchAll | pg8000/core.py:424-438 | all buffered rows are returned in order and the buffer is emptied; no result set gives the error |
| Connections.Connection.constructor | pg8000/core.py:578-809 | a new connection has client encoding utf8, autocommit off, not in a transaction, empty deques and caches, and satisfies its invariant |
| Connections.Connection.HandleNoticeResponse | pg8000/core.py:1384-1386 | the handler performs the specification step of its code |
| Connections.Connection.HandleAuthenticationRequest | pg8000/core.py:976-1061 | the handler performs the specification step of its code |
| Connections.Connection.HandleParameterStatus | pg8000/core.py:1388-1411 | the handler performs the specification step of its code |
| Connections.Connection.HandleBackendKeyData | pg8000/core.py:1067-1068 | the handler performs the specification step of its code |
| Connections.Connection.HandleReadyForQuery | pg8000/core.py:1063-1065 | the handler performs the specification step of its code |
| Connections.Connection.HandleRowDescription | pg8000/core.py:1123-1136 | the handler performs the specification step of its code |
| Connections.Connection.HandleErrorResponse | pg8000/core.py:817-832 | the handler performs the specification step of its code |
| Connections.Connection.HandleEmptyQueryResponse | pg8000/core.py:834-835 | the handler performs the specification step of its code |
| Connections.Connection.HandleDataRow | pg8000/core.py:1342-1357 | the handler performs the specification step of its code |
| Connections.Connection.HandleCommandComplete | pg8000/core.py:1325-1340 | the handler performs the specification step of its code |
| Connections.Connection.HandleNotificationResponse | pg8000/core.py:901-917 | the handler performs the specification step of its code |
| Connections.Connection.HandleCopyDone | pg8000/core.py:859-860 | the handler performs the specification step of its code |
| Connections.Connection.HandleCopyResponse | pg8000/core.py:862-899 | the handler performs the specification step of its code |
| Connections.Connection.Dispatch | pg8000/core.py:763-784 | dispatching a code performs the specification step of that code |
| Connections.Connection.HandleMessages | pg8000/core.py:1359-1367 | the loop leaves the connection and the cursor in the state `Sessions.Messages` gives, and keeps the invariant |
| Connections.Connection.NextStatementNum | pg8000/core.py:1170-1179 | the new number is above every cached number and is 1 or one above a cached number |
| Connections.Connection.Run | pg8000/core.py:1262-1296 | with a fresh cursor buffer, converting every argument for Bind (the first failure raised before anything is read) and then the reply loop give the state of `Sessions.Bound` |
| Connections.Connection.Parse | pg8000/core.py:1170-1224 | parsing a new statement gives the state of `Sessions.Parsing` followed by the reply loop |
| Connections.Connection.Cache | pg8000/core.py:1230-1263 | storing a statement gives the state of `Sessions.Binding` and keeps the invariant |
| Connections.Connection.ExecuteNew | pg8000/core.py:1168-1296 | executing an uncached statement gives the state of `Sessions.NewStatement` |
| Connections.Connection.ExecuteTyped | pg8000/core.py:1165-1296 | once `make_params` has given the parameters, `execute` gives the state of `Sessions.Typed` |
| Connections.Connection.Execute | pg8000/core.py:1138-1296 | `execute` runs `convert_paramstyle` and `make_args` on the caller's values, then gives the state of `Sessions.Execute` and keeps the invariant; a raise from either changes nothing |
| Connections.Connection.ExecuteArgs | pg8000/core.py:1163-1296 | once `make_args` has picked the arguments, `execute` runs `make_params` on them and gives the state of `Sessions.ExecuteArgs` |
| Connections.Connection.CursorExecute | pg8000/core.py:318-358 | `Cursor.execute` gives the state of `Sessions.CursorExecute`; `begin transaction` is run with no arguments (`None`, an empty sequence) |
| Connections.Connection.ExecuteMany | pg8000/core.py:360-380 | `executemany` gives the state of `Sessions.ExecuteMany` |
| Connections.Connection.Commit | pg8000/core.py:936-942 | `commit` executes `commit` |
| Connections.Connection.Rollback | pg8000/core.py:944-952 | `rollback` does nothing outside a transaction and otherwise executes `rollback` |
| Sessions.Handle | pg8000/core.py:763-784 | a handler never grows a deque past 100, and keeps the executed statements, autocommit and the cursor's statement (also pg8000/core.py:817-1068, pg8000/core.py:1123-1411) |
| Sessions.OnParameterStatus | pg8000/core.py:1388-1394 | ParameterStatus pushes the pair onto the status deque and changes nothing but it and the client encoding |
| Sessions.OnCommandComplete | pg8000/core.py:1325-1340 | CommandComplete leaves the caches as they were or empties every one |
| Sessions.ClearAll | pg8000/core.py:1335-1340 | every cache is emptied and no style is dropped |
| Sessions.ReadyForQueryEnds | pg8000/core.py:1063-1065 | ReadyForQuery ends the loop: the error is cleared, `in_transaction` becomes `status != IDLE`, and later bytes are left unread (also pg8000/core.py:1359-1367) |
| Sessions.Lookup | pg8000/core.py:1165-1168 | a cached statement is found iff the key holds no array parameter (each `send_array` is a new closure, and functions compare by identity) and the key is in the style's cache (also pg8000/core.py:1471-1477) |
| Sessions.TopNumIsMax | pg8000/core.py:1170-1179 | the top number is the largest cached statement number, or 0 |
| Sessions.NextNumIsTopPlusOne | pg8000/core.py:1170-1179 | the computed next number is the top number plus one |
| Sessions.Remember | pg8000/core.py:1255-1260 | a style's cache is cleared when it holds more than the maximum, then the statement is appended; other styles are unchanged |
| Sessions.RememberOk | pg8000/core.py:1255-1260 | storing a fresh statement keeps the caches bounded by the maximum plus one, keyed uniquely and numbered distinctly |
| Sessions.CachedNamesDistinct | pg8000/core.py:1180-1182 | two cached statements never share a name |
| Sessions.HandleSession | pg8000/core.py:763-784 | the handlers other than RowDescription, DataRow and CommandComplete leave the cursor and the statement caches unchanged, keep the deques bounded and keep the executed statements and autocommit (also pg8000/core.py:817-1068) |
| Sessions.HandleGood | pg8000/core.py:763-784 | every handler keeps the connection invariant |
| Sessions.MessagesGood | pg8000/core.py:1359-1367 | the message loop keeps the connection invariant |
| Sessions.PickArgs | pg8000/core.py:1156-1162 | the arguments `execute` binds: a `convert_paramstyle` error or a `make_args` error is the failure; otherwise the values `make_args` picked (also pg8000/core.py:206-212) |
| Sessions.Execute | pg8000/core.py:1138-1296 | when `convert_paramstyle` or `make_args` raises, `execute` raises before anything changes and reads nothing; otherwise it runs on the picked arguments as `Sessions.ExecuteArgs`; autocommit is kept |
| Sessions.ExecuteMissingName | pg8000/core.py:1162 | a named operation run with a mapping that lacks one of its placeholder names raises KeyError in `make_args`; the state and the unread bytes are unchanged (also pg8000/core.py:210-212) |
| Sessions.FixedOperationsPickNothing | pg8000/core.py:347-349 | `begin transaction`, `commit` and `rollback` convert in every style with no placeholder, so running them with no arguments binds no values (also pg8000/core.py:1138-1162) |
| Sessions.ExecuteArgs | pg8000/core.py:1163-1296 | when `make_params` fails, `execute` raises before anything changes and reads nothing; otherwise it records the operation; autocommit is kept |
| Sessions.Typed | pg8000/core.py:1165-1296 | with the parameters built, `execute` records the operation and keeps autocommit, whether or not the parse, the argument conversion or the server fails |
| Sessions.ExecuteGood | pg8000/core.py:1138-1296 | `execute` keeps the connection invariant, whatever the caller's values |
| Sessions.ExecuteArgsGood | pg8000/core.py:1163-1296 | `execute` on picked arguments keeps the connection invariant |
| Sessions.BoundGood | pg8000/core.py:1262-1296 | the bind round keeps the connection invariant, whether or not an argument fails to convert |
| Sessions.Parsing | pg8000/core.py:1170-1189 | a new statement is numbered one above the top cached number and named from the pid and that number |
| Sessions.ParsedFresh | pg8000/core.py:1170-1224 | after Parse and its reply, the statement is still new to the cache and correctly named |
| Sessions.Binding | pg8000/core.py:1260-1263 | storing the statement resets the cursor to no rows and row count -1 |
| Sessions.BindingGood | pg8000/core.py:1255-1263 | storing a fresh statement keeps the connection invariant |
| Sessions.CursorExecuteBegins | pg8000/core.py:348-349 | outside a transaction and without autocommit, `begin transaction` is executed first and the operation only if that succeeded; the operation is recorded only when `convert_paramstyle` and `make_args` succeed on the caller's values and the picked arguments have parameter types |
| Sessions.Many | pg8000/core.py:360-380 | a successful `executemany` gives one row count per parameter set |
| Sessions.ManyStops | pg8000/core.py:360-380 | the first failing execution ends `executemany` |
| Sessions.ManyStep | pg8000/core.py:360-380 | while nothing has failed, each parameter set runs from the state and unread bytes the previous one left, and adds its row count |

## Left out

- Interval.ClockToken: a clock token with fractional seconds (`00:00:01.5`) is an error in the
  model. The source (pg8000/converters.py:307-310) falls back to `float`, and the model has no
  floating-point seconds.
- Values.MakeParamsSpec: `tuple` parameters are not modelled. The source maps `tuple` to
  `array_inspect` like `list` (pg8000/core.py:756-761); the model's `Value` has only the list case.
- Encodings.Decode: only the utf8, ascii and latin-1 codecs are modelled. Any other Python codec
  named by the encoding table (for example `cp1252` or `euc_jp`) decodes to `None` in the model,
  where the source would decode.
- Paramstyle.IsAlnum: a parameter name character is an ASCII letter, digit or `_`. Python's
  `str.isalnum` also accepts non-ASCII letters and digits, so `:é` is a parameter in the source and
  literal text in the model.
- Numerals.ParseInt: accepts an optional sign followed by ASCII digits only. Python's `int()` also
  accepts surrounding whitespace, `_` separators and non-ASCII digits.
- Text.IsSpace: `str.split()` is modelled with ASCII whitespace only; Python also splits on other
  Unicode whitespace.
- ParamstyleProps.PyFormatConversion: covers a pyformat query that stays pyformat. A bare `%s`
  switches the scan to format; StyleStays and PositionalStep cover that path.
- Backend.AuthRefusals: SASL authentication (codes 10-12) is not modelled beyond its dispatch.
  SCRAM needs a hash and a random nonce.
- Backend.Md5ReadBack: MD5 itself is the `md5hex` parameter, not an implementation.
- Sessions.OnParameterStatus: the `server_version` branch (pg8000/core.py:1403-1411) only selects
  the set of commands with a count, and the model fixes that set.
- Connections.Connection.ExecuteNew: `execute` does not build the Parse, Describe and Execute
  messages or the head and tail of Bind (`bind_1`, `bind_2`). So the errors only those can raise
  are not modelled: an operation the client encoding cannot encode, or more than 32767
  parameters. Frontend builds these messages on its own (WriteParse, WriteBind). The Bind
  parameter values are converted and encoded, and their errors are modelled. No sent bytes are
  appended to `out`; the connection records only the executed operation.
- DataRows.RowStep: a column length below -1 can move the read offset before the start of the
  message. The model reads the next column there as `Truncated`; how `struct.unpack_from` treats
  a negative offset is not modelled. DataRows.ReadColumn, DataRows.ReadRow and
  DataRows.HandleDataRow inherit this. Every length that keeps the offset at or after 0 reads on
  as the source does.
- Sessions.PickArgs: a mapping given to the numeric, qmark or format style is the failure
  `MappingArgs`. The source's `make_args` passes the dict through, and `make_params` then iterates
  its keys in insertion order (pg8000/core.py:206-208, 1163); the model's mapping has no key order.
- Sessions.OnDataRow: a DataRow that arrives while the statement is still in its parse round is
  read with the converters the cursor holds. The source reads `ps['input_funcs']`, which is set
  only after the parse round has ended (pg8000/core.py:1230, 1345), so such a row raises KeyError
  there.
- Sessions.OnRowDescription: when the k-th column of a RowDescription is truncated, the model
  appends no column. The source appends the first k-1 columns to `ps['row_desc']` before the read
  fails (pg8000/core.py:1123-1136). In the bind round of a cached statement the source appends the
  columns to the dict the cache holds, which `cursor.ps` shares, and `input_funcs` stays as it
  was; the model extends only the cursor's copy and recomputes its converters.
- Connections.Connection.HandleDataRow: performs Sessions.OnDataRow, so a DataRow in the parse
  round is buffered instead of raising KeyError (see Sessions.OnDataRow).
- Connections.Connection.HandleRowDescription: performs Sessions.OnRowDescription, so it shares
  its treatment of a truncated column and of the cached statement's shared description (see
  Sessions.OnRowDescription).
- DataRows.ReadColumn: see DataRows.RowStep for a read at a negative offset.
- DataRows.ReadRow: see DataRows.RowStep for a read at a negative offset.
- DataRows.HandleDataRow: see DataRows.RowStep for a read at a negative offset.
- Interval.Normalize: seconds are exact rationals. The source adds `microseconds / 1000000` as a
  Python float, so its sums are rounded to doubles. For example,
  `PGInterval(seconds=1, microseconds=-700000) == PGInterval(microseconds=300000)` is false in the
  source (0.30000000000000004 against 0.3) and true in the model.
- Interval.TotalsOfNormalize: states the seconds total exactly, with no double rounding (see
  Interval.Normalize).
- Interval.EqMeansEqualTotals: compares exact totals. The source compares rounded float totals,
  so it can find two intervals unequal whose exact totals are equal (see Interval.Normalize).
- `close_prepared_statement` and its Close messages, `Cursor.close`, `Connection.close` and the
  `cache['statement']` memo of converted queries are not part of this model.
- COPY streams: the COPY handlers change only the copy flag. The stream's data is not read or
  written.
- The startup exchange's own loop (pg8000/core.py:801-807), sockets, SSL, timeouts and `getpid`
  are outside the model; the pid is a parameter.
- Two-phase commit (`tpc_*`, `xid`) is not part of this model.
- Parameter values: floats, decimals and intervals are modelled. A float or a decimal is sent as
  the `str` text it carries; an interval is sent as `__str__` gives it. Dates, times, json, uuid
  and inet have no `Value` constructor. An `OtherValue` stands for them and for any other Python
  type, and `make_params` rejects it with NotSupported.
- Result columns: text, bool, int, bytea and their arrays are read. A column of any other type
  the type table names, for example float, numeric, interval, date, json or uuid, is read by
  `LibraryIn(name)`. That reader always succeeds, with `OtherValue(name)`, and does not convert
  the text.
- The caches are modelled for one process, because the source keys them by `os.getpid()`.

## Findings

| source | as written | input that shows it | evidently intended | confidence | as-written member | corrected member |
|---|---|---|---|---|---|---|
| pg8000/core.py:1722-1742 | `array_check_dimensions` checks list-ness of the first element only. A string sibling of a list is measured with `len` and passes; a scalar sibling makes `len` raise TypeError. | `[["a","b"],"cd"]` is accepted with dimensions `[2]`; `[[1],2]` raises TypeError | every element at a level is a list exactly when the first one is; otherwise ArrayDimensionsNotConsistentError | not executed | Values.StringSiblingAccepted | Values.FixedComplete |
| pg8000/converters.py:361-363 | `PGInterval.__str__` reads `self.millenia` (line 362), an attribute that does not exist because the field is `millennia`. It also prints the unit word `millenia` (line 363), which `UNIT_MAP` (lines 263-291) does not accept. | `PGInterval(millennia=1)`: `str` raises AttributeError. With only the attribute fixed, `from_str("1 millenia")` raises KeyError. | the millennia count is read from `millennia` and printed as `millennia`, a word `from_str` reads back | not executed | Interval.StrAsWrittenFails | Interval.StrRoundTrip |

For the first row:

- `Values.CheckDimensions` models the check as written. `Values.StringSiblingAccepted` and
  `Values.ScalarSiblingTypeError` exhibit both inputs.
- `Values.CheckDimensionsFixed` is the corrected check. `Values.FixedSound` and
  `Values.FixedComplete` prove that it accepts exactly the rectangular arrays.
- `Values.SendValue`, the array send path, keeps the check as written, so that it behaves like
  the program.

For the second row:

- `Interval.StrAsWritten` models `__str__` as written.
- `Interval.StrText` is the corrected text. It prints the count of `millennia` under the word
  `millennia`. `Interval.StrRoundTrip` proves that `from_str` reads it back.
- `Values.Send` sends an interval parameter through `Interval.StrAsWritten`, as `pginterval_out`
  does. So an interval with millennia set fails with AttributeError (`MissingAttribute`).
  `Values.SendIntervalReadsBack` states this.
- `Interval.Repr` models `__repr__`, which reads the field correctly. `Interval.ReprIsWrappedStr`
  shows that it equals the corrected text wrapped in `<PGInterval` and `>`.
