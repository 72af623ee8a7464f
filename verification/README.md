# Design-pattern exercises, modelled in Dafny

This project models the behaviour of six small Java programs, each built
around one design pattern, and proves properties of them:

- **Organisation chart** (composite, `prac10/src/Main1.java`): employees and
  departments form a tree. A department adds and removes components, finds an
  employee by name, counts its employees, sums its budget and lists its
  hierarchy and its employees. An employee's salary can be changed.
- **Stock exchange** (observer, `practic7part2/src/Main.java`): observers
  subscribe to and unsubscribe from stock symbols, price changes notify a
  symbol's subscribers in order, and an automated trader buys below its
  threshold and sells otherwise.
- **Library** (`prac11/src/Main.java`): books carry an availability flag.
  Readers borrow books, loans return them, and a librarian adds, edits and
  deletes books. The library searches titles ignoring case and reports its
  counts.
- **Logging, report building and prototypes** (singleton, builder, prototype,
  `prac6shablon/src/Main.java`): a log severity filter, a configuration parse
  that runs line by line, plain-text and HTML report builders driven by a
  report creator, the report's text, and deep copies of game characters.
- **Report decorators** (decorator, `prac9/prac9p1/src/Main.java`): sales and
  user reports, wrapped in date-filter, sorting, CSV and PDF decorators.
- **Delivery services** (adapter and factory, `prac9/prac9p2/src/Main.java`):
  an internal service with a map of order statuses, adapters over three
  external logistics services, and a factory that selects a service by name.

Modules follow the programs:

| module | file |
|---|---|
| `Wrappers` | `Option` and `Result` (exceptions are `Failure` values) |
| `Seqs` | first-match search and first-occurrence removal, which is Java's `List.remove(Object)`; `Map` and `Filter` |
| `Strings` | decimal rendering of integers, Java's `Integer.parseInt`, Java's `String.split` on one character |
| `OrgChart` | `org_chart.dfy` |
| `StockExchange` | `stock_exchange.dfy` |
| `Library` | `library.dfy` |
| `LogSystem` | `log_system.dfy` |
| `ReportBuilder` | `report_builder.dfy` |
| `Prototype` | `prototype.dfy` |
| `ReportDecorators` | `report_decorators.dfy` |
| `Delivery` | `delivery.dfy` |

Java objects become immutable values. An org-chart component, a stock
observer and a library book carry an explicit `id` standing for their object
identity. Two operations use it. `List.remove(Object)` relies on `equals`,
which these classes do not override, so removal compares ids. Setting a salary
updates every employee value with that id, wherever it sits in the tree. Every
other operation acts only on the value it is given. The game characters of the prototype pattern live in an explicit heap of objects
with references. That makes "the clone shares nothing with the original" a
statement the model can express.

## Model

| member | source | states |
|---|---|---|
| OrgChart.HeadcountCountsEmployees | prac10/src/Main1.java:46-48 | the headcount of a component is the number of employees in its subtree: an employee counts once and a department adds nothing of its own |
| OrgChart.HeadcountCountsEmployeesOf | prac10/src/Main1.java:95-101 | a department's headcount is the number of employee leaves among its components, summed in list order |
| OrgChart.BudgetSumsSalaries | prac10/src/Main1.java:50-53 | a component's budget is the sum of the salaries of the employees in its subtree |
| OrgChart.BudgetSumsSalariesOf | prac10/src/Main1.java:103-110 | a department's budget is the salary total of the employees beneath it, and 0 for an empty department |
| OrgChart.EmployeesAreEmployeeNodes | prac10/src/Main1.java:72-84 | the employees of a subtree are exactly its employee nodes, in depth-first pre-order |
| OrgChart.TotalsOfAppend | prac10/src/Main1.java:95-110 | headcount, budget, employees and nodes of a component list are additive over concatenation |
| OrgChart.AddComponent | prac10/src/Main1.java:64-66 | the new component goes at the end, and the existing components keep their order |
| OrgChart.AddComponentTotals | prac10/src/Main1.java:64-66 | adding a component raises headcount and budget by exactly that component's totals, and its employees follow the existing ones |
| OrgChart.RemoveComponent | prac10/src/Main1.java:68-70 | only the first component with the same identity is removed, others keep their order, and nothing changes when it is absent |
| OrgChart.RemoveComponentTotals | prac10/src/Main1.java:68-70 | removing a present component lowers headcount and budget by exactly the removed component's totals |
| OrgChart.FindEmployeeByName | prac10/src/Main1.java:72-84 | a found component is an employee of the subtree with exactly that name, never a department; nothing is found iff no employee has the name |
| OrgChart.FindIsFirstInPreorder | prac10/src/Main1.java:72-84 | the search returns the first employee with that name in depth-first pre-order |
| OrgChart.SetSalaryTotals | prac10/src/Main1.java:28-30 | changing a salary keeps every headcount; the budget changes by the new salary times the employee's occurrences minus the old salaries |
| OrgChart.SetSalaryOfSoleEmployee | prac10/src/Main1.java:104-110 | for an employee that occurs once, every enclosing budget changes by new minus old salary |
| OrgChart.HierarchyIsPreorder | prac10/src/Main1.java:41-43 | the hierarchy listing has one line per node, in pre-order, with an employee's name, position and salary |
| OrgChart.HierarchyIsPreorderOf | prac10/src/Main1.java:87-92 | a department's "Отдел: " line precedes the lines of its components, in insertion order |
| OrgChart.AllEmployeesIsPreorder | prac10/src/Main1.java:112-121 | the employee listing has one heading per department and one " - name" line per employee, in the same pre-order as the search |
| OrgChart.MainScenarioTotals | prac10/src/Main1.java:128-152 | the sample organisation has 3 employees and a budget of 220000, which becomes 225000 after Alice's raise |
| OrgChart.MainScenarioSearch | prac10/src/Main1.java:155 | the sample search finds Alice; an unknown name and a department's name find nothing |
| StockExchange.Subscribe | practic7part2/src/Main.java:20-23 | the symbol's list is created if absent, the observer goes at its end, duplicates are kept and other symbols are untouched |
| StockExchange.Unsubscribe | practic7part2/src/Main.java:26-31 | only the first occurrence of the observer under that symbol is removed; absent symbol or observer changes nothing; other symbols are untouched |
| StockExchange.UnsubscribeUndoesSubscribe | practic7part2/src/Main.java:20-31 | unsubscribing an observer just subscribed to an existing list restores the registry |
| StockExchange.UnsubscribeLastKeepsEmptyList | practic7part2/src/Main.java:27-28 | removing the only observer of a new symbol leaves the symbol present with an empty list that no one is notified from |
| StockExchange.NotifyObservers | practic7part2/src/Main.java:34-40 | one update per list entry, in subscription order, with that symbol and price; an unknown symbol notifies no one |
| StockExchange.ChangePrice | practic7part2/src/Main.java:42-45 | one notice per subscription entry of that symbol, in subscription order, each with the new price; no one else is notified |
| StockExchange.React | practic7part2/src/Main.java:71-78 | an automated trader buys iff the price is below its threshold and sells iff it is at or above it; a plain trader only reports |
| StockExchange.Scenario | practic7part2/src/Main.java:89-99 | the sample subscriptions, unsubscription and the robot's reactions at 140 and 135 |
| Library.NewBook | prac11/src/Main.java:29-36 | a new book is available and holds the given title, isbn, authors and year |
| Library.BorrowBook | prac11/src/Main.java:89-96 | borrowing succeeds iff the book is available, and then only its flag becomes false; otherwise it fails with "The book is not available." |
| Library.ReturnBook | prac11/src/Main.java:144-148 | after a return the book is available whatever its earlier state, and nothing else changes |
| Library.ReplayAlternates | prac11/src/Main.java:89-96 | a history of borrows and returns succeeds iff no borrow finds the book out, so borrowing twice without a return fails; the final flag is set by the last event |
| Library.EditBook | prac11/src/Main.java:120-123 | the title never changes, and the book is available afterwards iff the new title is "Available" |
| Library.AddBook | prac11/src/Main.java:115-118 | the book is appended and the list before it is unchanged |
| Library.DeleteBook | prac11/src/Main.java:125-128 | the first entry that is this book is removed; when the book is absent nothing changes |
| Library.DeleteUndoesAdd | prac11/src/Main.java:115-128 | deleting a book just added to a list that did not hold it restores the list |
| Library.SearchBook | prac11/src/Main.java:169-176 | the result is the first book whose title matches ignoring case; the search fails with "Book not found." iff no title matches |
| Library.ReportCountsReadBack | prac11/src/Main.java:178-183 | the numbers printed for books, users and loans read back as the lengths of those lists |
| LogSystem.SeverityValueOf | prac6shablon/src/Main.java:6-10 | `valueOf` accepts exactly the three constant names and returns the constant with that name |
| LogSystem.GetInstance | prac6shablon/src/Main.java:20-35 | the first call creates the instance with severity LOW and file "log_output.txt", and later calls return the same instance |
| LogSystem.PassesOrder | prac6shablon/src/Main.java:44 | LOW as the threshold passes everything, HIGH always passes, and a severity at least as high as a passing one also passes |
| LogSystem.WriteLog | prac6shablon/src/Main.java:43-50 | a message produces one line iff its severity's ordinal is at least the configured one, and the line holds the timestamp, "[SEVERITY]" and the message |
| LogSystem.ApplyLine | prac6shablon/src/Main.java:57-62 | a line with no fields fails on `parts[0]`; other keys are ignored; a known key without a value fails on `parts[1]`; otherwise "LogFile" takes the second field as the file, and "LogSeverity" takes the severity named by the second field or fails for an unknown name, whatever further fields follow |
| LogSystem.ApplyKeyValue | prac6shablon/src/Main.java:58-61 | "LogSeverity=v" sets the severity or fails for an unknown name, "LogFile=v" sets the file, and any other key changes nothing |
| LogSystem.KeyWithoutValueFails | prac6shablon/src/Main.java:59-61 | a known key followed by nothing or by a bare "=" fails with a missing `parts[1]` |
| LogSystem.SeparatorAloneFails | prac6shablon/src/Main.java:57-58 | a line holding only "=" splits into no fields and fails on `parts[0]` |
| LogSystem.EmptyLineIgnored | prac6shablon/src/Main.java:57-62 | an empty line splits into one empty field, which is no known key, so the configuration is unchanged |
| LogSystem.LoadConfigAppend | prac6shablon/src/Main.java:56-63 | the parse runs the lines in order and stops at the first failing line, keeping the effect of the lines before it |
| LogSystem.LaterLineOverrides | prac6shablon/src/Main.java:56-63 | a final valid "LogSeverity" line overrides any severity set before it and keeps the file name |
| ReportBuilder.WrapHoldsArgument | prac6shablon/src/Main.java:224-242 | the HTML builder stores its argument intact between the opening and the closing tag; the plain builder stores it with nothing around it |
| ReportBuilder.UnwrapWrap | prac6shablon/src/Main.java:186-204 | cutting the tags off what either builder stores gives back exactly the text it was handed |
| ReportBuilder.RunFromNew | prac6shablon/src/Main.java:148-150 | after any run of builder calls, title, body, end and format are the last ones set (wrapped per builder) and the sections are all added ones, in call order |
| ReportBuilder.CreatorReport | prac6shablon/src/Main.java:256-263 | the report creator yields the fixed title, body and end, the sections "Результаты" then "Расходы", and the given format |
| ReportBuilder.ReportLines | prac6shablon/src/Main.java:157-175 | the text is the style line, title, body, one "Раздел: " line per section in order, then the conclusion; unset fields read "null" |
| ReportBuilder.ReportToString | prac6shablon/src/Main.java:157-175 | the text is those lines each ended by a newline, and it fails iff no style was applied |
| Prototype.CopyItem | prac6shablon/src/Main.java:281-283 | a copied weapon, defense or ability holds the same title and value |
| Prototype.CopyAbilities | prac6shablon/src/Main.java:360-362 | each ability is copied into a new object, in order, and the copies are appended to the clone's list; nothing else changes |
| Prototype.CopyCharacter | prac6shablon/src/Main.java:358-364 | copying allocates a well-formed clone and leaves every existing object unchanged |
| Prototype.CopyCharacterIsDeep | prac6shablon/src/Main.java:358-364 | the clone, its weapon, defense, ability list and abilities are all new objects, holding the original's values, with abilities one for one in order |
| Prototype.CopyRendersAlike | prac6shablon/src/Main.java:366-381 | the clone prints exactly as the original does, and the original prints as before |
| Prototype.AddAbility | prac6shablon/src/Main.java:353-355 | the ability is appended to the character's list, and no other object changes |
| Prototype.CloneIsIndependent | prac6shablon/src/Main.java:350-364 | after a copy, an ability added to the clone shows in the clone's text and leaves the original's text unchanged |
| ReportDecorators.GenerateLayout | prac9/prac9p1/src/Main.java:14-93 | a report's output is its base report's text followed by every decorator's suffix, innermost first |
| ReportDecorators.WrappedIsPrefix | prac9/prac9p1/src/Main.java:34-93 | the wrapped report's output is a prefix of the decorated output, and a proper prefix iff the decorator is a concrete one |
| ReportDecorators.PassIsTransparent | prac9/prac9p1/src/Main.java:34-37 | the plain decorator changes no output, wherever it sits in a chain |
| ReportDecorators.WrapOfLayers | prac9/prac9p1/src/Main.java:27-38 | every report is exactly the chain of its base report and its decorators |
| ReportDecorators.LayersOfWrap | prac9/prac9p1/src/Main.java:103-111 | a chain built from a list of decorators gives back that list |
| ReportDecorators.SubReportIsPrefix | prac9/prac9p1/src/Main.java:35-36 | every report inside a chain generates a prefix of the whole chain's output |
| ReportDecorators.DateFilterArguments | prac9/prac9p1/src/Main.java:52-54 | the start and end dates appear verbatim right after their labels |
| ReportDecorators.SortingArgument | prac9/prac9p1/src/Main.java:67-69 | the sort key appears verbatim after its label |
| ReportDecorators.DateFilterArgumentsInChain | prac9/prac9p1/src/Main.java:53 | a date filter's start date stays at the same position when more decorators are wrapped around it |
| ReportDecorators.SampleSalesChain | prac9/prac9p1/src/Main.java:100-107 | the sample sales chain has the date filter, sorting and CSV suffixes, in that order |
| ReportDecorators.SampleUserChain | prac9/prac9p1/src/Main.java:110-113 | the sample user chain has the sorting and PDF suffixes, in that order |
| Delivery.DeliverOrder | prac9/prac9p2/src/Main.java:16-19 | the internal service marks the order "Заказ в пути" and leaves every other order unchanged; adapter A fails iff the id does not parse; B and C keep no state |
| Delivery.DeliveryStatus | prac9/prac9p2/src/Main.java:22-24 | the internal status is the recorded one or "Заказ не найден"; adapter A's status holds the parsed number and fails iff the id does not parse; for any id, adapter B reports "Посылка id доставлена" and adapter C "Заказ id на складе" |
| Delivery.DeliveryCost | prac9/prac9p2/src/Main.java:27-30 | each service charges its own constant (100, 150, 200 or 250) whatever the id; adapter A fails iff the id does not parse |
| Delivery.GetDeliveryService | prac9/prac9p2/src/Main.java:155-167 | the factory succeeds exactly for the four keys and otherwise fails with "Некорректный тип службы доставки: " and the key |
| Delivery.FactoryKeysAreDistinct | prac9/prac9p2/src/Main.java:156-164 | each key yields its own service, and the internal one starts with no orders |
| Delivery.InternalStatusAfterDeliveries | prac9/prac9p2/src/Main.java:17 | after any run of deliveries an order is "in transit" iff it was delivered, and otherwise keeps its earlier status |
| Delivery.FreshInternalStatus | prac9/prac9p2/src/Main.java:23 | from a fresh internal service, delivered orders are in transit and every other order is not found |
| Delivery.DeliverIsIdempotent | prac9/prac9p2/src/Main.java:16-19 | delivering an order twice has the same effect as delivering it once |
| Delivery.StatelessAdapters | prac9/prac9p2/src/Main.java:98-111 | adapters B and C are unchanged by any run of deliveries, so their status ignores earlier deliveries |
| Delivery.AdapterAStatusOfNumber | prac9/prac9p2/src/Main.java:39-41 | for a 32-bit number's own text, adapter A's status is "Груз", that number, then "в пути" |
| Delivery.AdapterASameNumberSameStatus | prac9/prac9p2/src/Main.java:78-81 | ids that parse to the same number get the same status from adapter A |
| Delivery.SampleClient | prac9/prac9p2/src/Main.java:175-178 | the sample client's internal service reports order "123" in transit, at cost 100 |
| Delivery.SampleClientA | prac9/prac9p2/src/Main.java:181-184 | the factory's key "ВнешняяA" gives adapter A, which reports "Груз 456 в пути" for order "456", at cost 150 |
| Delivery.SampleClientBC | prac9/prac9p2/src/Main.java:187-196 | the factory's keys "ВнешняяB" and "ВнешняяC" give adapters B and C, which report "Посылка 789 доставлена" at cost 200 and "Заказ 101112 на складе" at cost 250 |
| Strings.ParseIntOfIntToString | prac9/prac9p2/src/Main.java:72 | `Integer.parseInt` reads a 32-bit number's decimal text back as that number |
| Strings.ParseInt | prac9/prac9p2/src/Main.java:78 | a successful parse had an optional sign followed by at least one digit and gives a 32-bit value, so a lone "-" or "+" fails; an unsigned or signed numeral parses to its value ("-0456" to -456, "+5" to 5) exactly when that value is in range; a failure carries the input |
| Strings.JavaSplit | prac6shablon/src/Main.java:57 | the fields hold no separator; a line without one is a single field; otherwise the fields are the pieces between separators, in order, with only trailing empty pieces dropped |
| Strings.SplitKeyValue | prac6shablon/src/Main.java:57 | "key=value" with a non-empty value splits into exactly the key and the value |
| Seqs.RemoveFirst | practic7part2/src/Main.java:28 | removes the first element with the given identity and keeps the rest in order; nothing changes when there is none |

## Left out

- Printing: every `System.out.println` is left out. Displays become sequences of lines (`OrgChart.Hierarchy`, `OrgChart.AllEmployees`, `Library.ReportLines`, `LogSystem.WriteLog`), and console messages that only report an action are dropped.
- File I/O is left out: the `BufferedWriter` in `writeLog`, `LogFilter.filterLogs`, file reading in `loadConfig`, and the serialization in `saveLibraryData`/`loadLibraryData`. `loadConfig` is modelled as a fold over the file's lines (`LogSystem.LoadConfig`). `writeLog` returns the line it would append.
- `new Date()` is left out. Loan dates are not modelled, and the log line's timestamp is a parameter.
- The double-checked locking in `LogSystem.getInstance` is concurrency and is left out. The singleton slot is an explicit `Option` (`LogSystem.GetInstance`), and the model is its sequential behaviour.
- Floating point is left out. Salaries and delivery costs are `int`, and stock prices and thresholds are `real`. The program's values (70000, 75000, 150.0, 100.0 …) are exact in both.
- OrgChart.SalaryText: a salary is rendered as its integer digits followed by ".0". This is what `Double.toString` prints for whole numbers below 10^7. Larger or fractional salaries would print in another form, which is not modelled.
- Library.SearchBook: `equalsIgnoreCase` is modelled with a caller-supplied character folding function. Java's Unicode case tables are not reproduced.
- Strings.ParseInt: only ASCII digits are accepted. Java's `Integer.parseInt` also accepts digits from other Unicode scripts.
- OrgChart.AddComponent: acts on the department value it is given. In Java, a component added to a department that is already attached to a parent also shows in the parent's totals. The model has no operation that edits a department in place inside a larger tree. Java also accepts a department added to itself, after which `getTotalEmployees` recurses without end; the model's values are finite trees, so adding a department to itself puts a copy of its old value in its list.
- OrgChart.RemoveComponent: like `OrgChart.AddComponent`, changes only the department value it is given. Removing from a department that is already attached does not reach the ancestors' totals as it would in Java.
- Java reference aliasing outside the identity-carrying ids is not modelled. An org-chart employee placed under two departments is two values with one id, and `OrgChart.SetSalary` updates every value with that id. A library book shared between the book list and a loan is two values, so a borrow updates the value it is given.
- Prototype.WfCharacter: a character with a null weapon or defense is outside the model. Its `toString` would print "null", and its `copy()` would throw `NullPointerException` at `this.weapon.copy()` (prac6shablon/src/Main.java:359). The program always constructs characters with both.
- Null references in the library are not modelled: `Loan.returnBook` on a loan whose reader is null, and `Library.searchBook` over a listed book whose own title is null. Java throws `NullPointerException` in both. A null search query needs no special case: it matches no title, so the search fails with "Book not found.", as for any absent title.
- `Reader.register`/`login`, `Librarian.register`/`login` and the other printing-only methods have no state to model.
- The hotel facade (`prac10/src/Main.java`), `prac5shablon/src/Main.java` and `practice7shablon/src/Main.java` are not part of this model. They only print, read the console, or compute floating-point trip costs whose rounding is not modelled.
