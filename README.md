# BaseRepository — a Dafny model

A small C++ persistence layer for MySQL has three parts:

- `loadConfigurations` reads a `key=value` configuration file into a dictionary.
- `DatabaseConfig::loadFromFile` takes host, user, password, database and port out of that dictionary.
- `Entity` is the base of every persistable record. It has an id that is 0 until stored, two timestamps, and compares by id only.
  - `Product` and `User` derive from it in `Samples.cpp`.
  - Each one supplies its table name, its column lists, its insert values and update pairs, and a positional `fillFromRow` that hydrates it from a row of strings.
- `BaseRepository<T>` opens a connection per call:
  - `execute` returns the affected-row count, or -1.
  - `executeQuery` returns the rows of a query as strings.
  - `getById` builds `SELECT <columns> FROM <table> WHERE id = <id>;` from the entity's metadata and hydrates the first row.

The model has one module per part:

| module | file | models |
|---|---|---|
| `Wrappers` | wrappers.dfy | `Option` |
| `Text` | text.dfy | the `std::string` operations of the parser (`find`, `find_first_not_of`, `find_last_not_of`, `erase`) and trimming |
| `Numbers` | numbers.dfy | `std::to_string(long long)` and `std::stoll` |
| `Config` | config.dfy | `loadConfigurations` (a `getline` loop) and the class `DatabaseConfig` |
| `Entities` | entity.dfy | the class `Entity` |
| `Samples` | samples.dfy | the classes `Product` and `User` |
| `Repository` | repository.dfy | the class `Repository` (`BaseRepository`) over an abstract driver |

How the C++ constructs are represented:

- **The configuration file** is a sequence of lines. `None` stands for a file that cannot be opened.
- **`std::string::npos`** is `None`.
- **Trimming.** `key.erase(key.find_last_not_of(...) + 1)` wraps `npos + 1` around to 0 on an all-blank string. The model keeps that wrap (`Text.SizeAfter`).
- **`std::stoll`** works as in C++:
  - it skips C white space and reads one optional sign and the digits that follow;
  - it ignores trailing text;
  - it fails when there is no digit or the value does not fit a `long long`.
- **Inheritance.** `Product` and `User` hold their `Entity` part as the object `entity`.
- **The template `getById`** is written out once per entity: `GetProductById` and `GetUserById`.
- **The MySQL driver** is the datatype `Repository.Driver`. It says:
  - whether a login (URL, user, password, schema) is accepted;
  - what `executeUpdate` reports for a statement;
  - what `executeQuery` delivers for a query — an error, or a column count and the records produced before the end of the result set or before an exception.
- **Exceptions.** An exception that the repository catches is an error reply. An exception thrown by `fillFromRow` is a `false` result.
- **The wall clock.** The text `ctime` renders is passed in as `now`.

## Model

| member | source | states |
|---|---|---|
| Text.Find | BaseRepository.hpp:125 | `find` reports npos exactly when the character is absent, and otherwise its first position |
| Text.FindIsFirst | BaseRepository.hpp:125 | any position holding the character with no earlier occurrence is the one `find` reports |
| Text.FindFirstNotOf | BaseRepository.hpp:130 | npos exactly when every character is in the set; otherwise a position outside the set with only set characters before it |
| Text.FindLastNotOf | BaseRepository.hpp:131 | npos exactly when every character is in the set; otherwise a position outside the set with only set characters after it |
| Text.EraseFirst | BaseRepository.hpp:130 | `erase(0, n)` keeps the suffix from `n`, and erases everything for npos |
| Text.EraseFrom | BaseRepository.hpp:131 | `erase(pos)` keeps exactly the first `pos` characters, and the input is what it kept followed by what it dropped |
| Text.TrimStrips | BaseRepository.hpp:129-133 | trimming yields "" exactly for an all-blank string; otherwise the result neither starts nor ends with a blank, is a contiguous part of the input, and only blanks surround it |
| Text.TrimKeepsUnpadded | BaseRepository.hpp:129-133 | a string that neither starts nor ends with a blank is left unchanged |
| Numbers.NatToDecimal | BaseRepository.hpp:312 | the rendering is non-empty, all digits, with no leading zero except for 0 itself |
| Numbers.IntToDecimal | BaseRepository.hpp:312 | the rendering is non-empty and starts with '-' exactly for a negative value |
| Numbers.DigitsOfDecimal | BaseRepository.hpp:312 | the digits of a rendered number denote that number |
| Numbers.SkipSpace | Samples.cpp:55 | what `std::stoll` skips is an all-space prefix, and what remains does not start with a space |
| Numbers.DigitPrefix | Samples.cpp:55 | the digits read are the longest digit prefix: a non-digit or the end follows them |
| Numbers.ParseLongLong | Samples.cpp:55 | `std::stoll` skips C white space and reads one optional sign and the digits after it; it fails when no digit follows, and a result is the value of those digits, negative only after a '-' |
| Numbers.ParseDecimalPrefix | Samples.cpp:55 | `std::stoll` reads back what `std::to_string` wrote, also when non-digit text follows, and fails when the value does not fit 64 bits |
| Numbers.ParseDecimal | Samples.cpp:55 | the round trip of an id cell holding just a rendered `long long` |
| Numbers.ParseSkipsLeadingSpace | Samples.cpp:55 | leading white space does not change what `std::stoll` reads |
| Numbers.ParseNeedsDigit | Samples.cpp:55 | a cell with no digit after the spaces and an optional sign is rejected |
| Config.ParseLine | BaseRepository.hpp:122-128 | a line adds nothing exactly when it is empty, starts with '#' before trimming, or has no '=' |
| Config.Store | BaseRepository.hpp:134 | storing a setting adds its key with its value and keeps every other entry |
| Config.ParseConfigAppend | BaseRepository.hpp:120-136 | the dictionary of a file with one more line is the old dictionary with that line stored |
| Config.LoadConfigurations | BaseRepository.hpp:108-139 | the `getline` loop returns the dictionary of the file's lines, and the empty dictionary when the file cannot be opened |
| Config.TrimInPlace | BaseRepository.hpp:130-133 | the two `erase` statements trim the string |
| Config.SplitAtFirstEquals | BaseRepository.hpp:125-128 | the key is the trimmed text before the first '=' and the value the trimmed text after it, with later '=' kept |
| Config.WrittenLineReadsBack | BaseRepository.hpp:122-134 | `key=value` with a key free of '=' that does not start with '#', and neither key nor value padded with blanks, reads back as that key and value; the empty key of `=value` included |
| Config.IgnoredLineAddsNothing | BaseRepository.hpp:122-126 | removing an empty, comment or '='-less line from anywhere in the file leaves the dictionary unchanged |
| Config.LastOccurrenceWins | BaseRepository.hpp:134 | a key maps to the value of the last line that sets it |
| Config.EntryFromLine | BaseRepository.hpp:134 | every entry of the dictionary comes from a line holding that key and value |
| Config.LineKeyIsEntry | BaseRepository.hpp:134 | every key some line sets is in the dictionary |
| Config.Lookup | BaseRepository.hpp:161-164 | `config[key]` gives "" for a missing key |
| Config.UsableIffRequiredKeysSet | BaseRepository.hpp:159-173 | `loadFromFile` succeeds exactly when host, user, password and database are all present and non-empty |
| Config.UsableFileNamesRequiredKeys | BaseRepository.hpp:156-173 | a usable file has, for each required key, a line setting it to a non-empty value |
| Config.DefaultPortScenario | BaseRepository.hpp:166 | the settings host db1, user root, password pw, database shop without a port are usable and use port "3306" |
| Config.DatabaseConfig.constructor | BaseRepository.hpp:142-148 | all five settings start empty |
| Config.DatabaseConfig.LoadFromFile | BaseRepository.hpp:156-174 | an empty dictionary fails and changes nothing; otherwise four settings are read with "" for missing keys, the port is the file's value when the key is present, even an empty one, and "3306" when it is absent; the result is the result is true exactly when the four required ones are non-empty |
| Entities.Entity.constructor | BaseRepository.hpp:37-43 | a new entity has id 0 and both timestamps "now" |
| Entities.Entity.SetId | BaseRepository.hpp:63 | assigns the id and nothing else |
| Entities.Entity.SetCreatedAt | BaseRepository.hpp:64 | assigns the creation time and nothing else |
| Entities.Entity.SetUpdatedAt | BaseRepository.hpp:65 | assigns the update time and nothing else |
| Entities.Entity.UpdateTimestamp | BaseRepository.hpp:67-70 | the update time becomes "now" and nothing else changes |
| Entities.Entity.Equals | BaseRepository.hpp:77-79 | `operator==` compares the ids alone; `Entities.EqualityIsById` and `Entities.EqualityIsEquivalence` state its properties |
| Entities.Entity.NotEquals | BaseRepository.hpp:82 | `operator!=` is the negation of `==`, so it holds exactly when the ids differ (`Entities.EqualityIsById`) |
| Entities.EqualityIsById | BaseRepository.hpp:77-82 | `==` holds exactly when the ids agree, `!=` exactly when they differ |
| Entities.EqualityIsEquivalence | BaseRepository.hpp:77-79 | `==` is reflexive, symmetric and transitive |
| Entities.TwoNewEntitiesAreEqual | BaseRepository.hpp:37-43 | two distinct freshly constructed entities compare equal |
| Samples.Product.constructor | Samples.cpp:19 | the default product has an empty name, price 0 and a new entity with id 0 |
| Samples.Product.WithFields | Samples.cpp:20-21 | the product holds the given name and price and a new entity with id 0 |
| Samples.Product.SetName | Samples.cpp:28 | assigns the name; id and timestamps stay |
| Samples.Product.SetPrice | Samples.cpp:29 | assigns the price; id and timestamps stay |
| Samples.Product.FillFromRow | Samples.cpp:51-63 | a short row or a bad id cell changes nothing; otherwise id and name are set, and the price only when it parses; it succeeds exactly when all three hold; timestamps stay |
| Samples.User.constructor | Samples.cpp:83 | the default user has empty username and email and a new entity with id 0 |
| Samples.User.WithFields | Samples.cpp:84-85 | the user holds the given username and email and a new entity with id 0 |
| Samples.User.SetUsername | Samples.cpp:92 | assigns the username; id and timestamps stay |
| Samples.User.SetEmail | Samples.cpp:93 | assigns the email; id and timestamps stay |
| Samples.User.FillFromRow | Samples.cpp:115-123 | succeeds exactly for a row of at least five cells whose id cell parses, then holds the parsed id and cells 1 and 2; on failure nothing changes; timestamps stay |
| Samples.ProductMetadata | Samples.cpp:32-48 | table "products"; two insert columns and values matched by position, the name quoted; each update pair is column, " = ", value; five select columns starting with "id", the insert columns at cells 1 and 2 |
| Samples.UserMetadata | Samples.cpp:96-112 | table "users"; both insert values quoted; each update pair is column, " = ", value; five select columns starting with "id", the insert columns at cells 1 and 2 |
| Samples.UserRowReadsBack | Samples.cpp:115-121 | a row holding a rendered id, a username and an email hydrates to exactly those |
| Samples.ProductRowReadsBack | Samples.cpp:51-57 | a product row with a rendered id hydrates fully exactly when its price cell parses, and reads back its id and name |
| Samples.ShortRowRejected | Samples.cpp:52-54 | a row of fewer than five cells is rejected by both entities |
| Samples.BadIdRejected | Samples.cpp:55 | a row whose id cell `std::stoll` rejects is rejected by both entities |
| Repository.Cells | BaseRepository.hpp:274-278 | a row has one cell per column, cell k being `getString(k + 1)` |
| Repository.Table | BaseRepository.hpp:273-280 | one row per delivered record, in order |
| Repository.JoinAppend | BaseRepository.hpp:306-311 | the column list of two non-empty lists is their lists joined by ", " |
| Repository.JoinEndsWithLast | BaseRepository.hpp:306-311 | the list ends with the last column, with no separator after it |
| Repository.JoinFive | BaseRepository.hpp:306-311 | five columns are listed with ", " between them |
| Repository.BuildSelectById | BaseRepository.hpp:302-312 | the loop builds "SELECT " + the joined columns + " FROM " + table + " WHERE id = " + the rendered id + ";" |
| Repository.Repository.constructor | BaseRepository.hpp:217-219 | the credentials are those of the configuration |
| Repository.Repository.Connect | BaseRepository.hpp:198-209 | a connection exists exactly when the driver accepts "tcp://host:port" with the credentials and schema |
| Repository.Repository.Execute | BaseRepository.hpp:236-251 | -1 exactly when no connection is made or the statement fails, otherwise the affected-row count |
| Repository.Repository.FetchRow | BaseRepository.hpp:274-278 | the inner loop collects cells 1 to numColumns of the record |
| Repository.Repository.ExecuteQuery | BaseRepository.hpp:259-288 | the rows of the result set, each with its column count of cells; no rows when no connection is made or the query fails |
| Repository.Repository.GetProductById | BaseRepository.hpp:296-331 | null exactly when there is no row or the first row does not hydrate; otherwise a new product holding the first row's id, name and price |
| Repository.Repository.GetUserById | BaseRepository.hpp:296-331 | null exactly when there is no row or the first row does not hydrate; otherwise a new user holding what the first row holds |
| Repository.Repository.NoConnectionNoRows | BaseRepository.hpp:261-265 | a refused connection gives no rows, so `getById` finds nothing |
| Repository.Repository.StoredUserReadsBack | BaseRepository.hpp:296-331 | a user row returned for the lookup with its id rendered as text reads back with that id, username and email |

## Left out

- The MySQL Connector/C++ is an abstract `Driver`, for four reasons:
  - the database's state is not modelled, so an `execute` does not change what a later query returns;
  - the error details (SQLSTATE, code, message) are not kept;
  - `get_driver_instance` is not called, because the driver is passed to the constructor;
  - a driver that throws there is not modelled.
- File reading with `std::ifstream` is not modelled: the file is given as its lines, or `None` when it cannot be opened.
- All `std::cout`/`std::cerr` output is left out, including the destructor's message and `displayInfo`, because it is presentation only.
- `time`/`ctime` depend on the wall clock, so the rendered time is a parameter. `setCreatedAt` and `setUpdatedAt` take that rendered text instead of a `time_t`.
- `std::stod` and `std::to_string(double)` for the price are floating point. They are the parameters `parsePrice` and `formatPrice`, and the price is a `real`.
- `main` and the global vectors of `Samples.cpp` are demo code.
- The `tableName = "entities"` field of `Entity` is never read.
- The getters are plain field reads and are represented by the fields themselves.
- The getters `getTableName`, `getColumnNamesForInsert`, `getValuesForInsert`, `getUpdatePairs` and `getColumnNamesForSelect` are functions without their own contract. Their properties are stated by `Samples.ProductMetadata` and `Samples.UserMetadata`.
- Repository.Repository.ExecuteQuery: an exception in the middle of the fetch loop is modelled by the driver delivering only the records before it. The C++ code then returns the rows collected so far.

In three places the code does less than a caller might expect, and the model follows the code:

- **`getById`** returns `nullptr` for "not found", for a connection or query failure, and for a hydration failure alike. A caller cannot tell these outcomes apart.
- **`execute` and `executeQuery`** do not tell a failed connection from a failed statement. `executeQuery` also does not tell either from an empty result.
- **`Product::fillFromRow`** can fail without mutating anything, or after a partial mutation:
  - on a short row or an id cell that `std::stoll` rejects, it fails before assigning anything;
  - on a price cell that `std::stod` rejects, it fails after id and name are overwritten.

  So a failed hydration can leave the id changed. In `getById` the object is discarded in that case.
