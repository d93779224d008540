# Verified models of the widgets, the audio path and the toolkit's exact algorithms

Nine models in Dafny, each of one stateful or exact-arithmetic core of the repository. Where the code changes state in
place, the model is a class with the same fields, arrays, links and loops, and every method is proved to take the state
exactly to what a specification on values says. The theorems are about that specification: invariants over whole games
and sessions, what a protocol delivers, and what an algorithm computes for every input.

| files | part of the repository | what it is |
|---|---|---|
| `KlondikeRules`, `KlondikeShuffle`, `KlondikeFinish`, `KlondikeBoard` | `cards/cards.cc` | rules, the shuffle, confluence of the foundation moves, the game as a state machine |
| `KlondikePlay` | `cards/cards.cc` | what each event of the game comes to, told by the cards |
| `KlondikeTable`, `KlondikeGame` | `cards/cards.cc` | the piles as arrays with counts, and the handlers of the widget |
| `MineRules`, `MineScan`, `MineFlood`, `Minefield` | `mine/mine.cc` | rules, board scans, the flood queue, the board widget |
| `MinePlay` | `mine/mine.cc` | what each move comes to, told by the cells |
| `BrowserList` | `fltk/src/Fl_Browser.cxx` | the doubly linked list with its line cache |
| `BrowserScroll` | `fltk/src/Fl_Browser_.cxx` | the scroll position against item heights |
| `AudioRing`, `AudioProtocol`, `AudioOutput` | `nesemu/main.cpp` | the lossy ring, the producer and thread as atomic steps, the code of those steps |
| `TimeoutRules`, `TimeoutPace`, `TimeoutExpiry`, `Timeouts` | `fltk/src/Fl.cxx` | the sorted timeout list on values, when a repeating handler is due, the expiry loop, and the code on two linked lists |
| `DrawLine` | `doom/doom.cpp` | the integer line |
| `BitmapCopy` | `fltk/src/Fl_Bitmap.cxx` | scaling of packed bits |
| `ColorConvert` | `fltk/src/Fl_Color_Chooser.cxx` | colour conversion over the reals, and the chooser that keeps both forms |
| `Sequences` | | first, last, insert and remove on sequences |

How the classes are tied to the values: `Valid()` says that the real fields (arrays, counts, pointers) hold what a ghost
field or `View()` says, and each method's postcondition equates the new value with a function of the old one. What the
source asks of the outside world is a parameter: random numbers, clock readings, distances on the screen, wave data.

`KlondikePlay` and `MinePlay`, and lemmas beside the specifications of the other modules, tell what the specified
operations come to without using them: which card or cell changes and how. Those that only spell out one transition have
no row below.

Results worth reading first:

* `KlondikePlay.RequestedGameFinishes`: if a draw, a drop or a landing leaves an unwon game with an empty stock, open
  columns and some winning order of foundation moves, the timer alone puts up all 52 cards, although it takes the moves
  in another order than the trial run that found out. The reason is `KlondikeFinish.DeadEndsAgree`: all orders of
  foundation moves that cannot go on end in the same layout.
* `KlondikeShuffle.EveryOrderIsDealt` and `EachOrderOnce`: every order of the deck can be dealt, and by one choice of the
  exchanges only.
* `KlondikeTable.Table.TrialRun`: the greedy trial answers yes exactly when some order of moves wins.
* `MinePlay.RevealOpens`, `ChordOutcome`, `ChordSpreads` and `Minefield.Board.FloodOpen`: a reveal opens exactly the least
  set that spreads over the cells touching no mine; a chord loses exactly when a flag around it is wrong, and otherwise
  opens exactly the least such set from all the cells around it.
* `AudioProtocol.ClosedIsSettled` and `DrainEnds`: after a close every frame has been handed to the device or was pushed
  out of the ring, and the close does come to an end.
* `TimeoutPace.Pace` and `NoDrift`: where a handler that repeats itself ends up after any run, what it loses when its
  callback reads the clock or waits before repeating, and that it keeps to whole periods exactly when nothing is lost.
* `KlondikeBoard.CardsConserved` and `ResizeConserves`: no card is lost or doubled, except that a resize during a drag loses
  the run, exactly then (a press that went stale is treated apart, see the end of this file).
* `BrowserList.Browser.InsertAndNumber` and `InsertPastEnd`: the number reported for an inserted line is right exactly for
  the numbers 1 to lines + 1; an example shows a wrong one.
* `ColorConvert.RoundTrip`: the conversion to hue, saturation and value and back is exact exactly for grey colours and
  those with a saturation of at least 5e-6, and otherwise within that fraction of the value.

## Model

| member | source | states |
|---|---|---|
| `KlondikeRules.NewDeckFull` | cards/cards.cc:557-565 | the deck that is built holds each of the 52 cards exactly once |
| `KlondikeShuffle.ShuffledByIsDeck` | cards/cards.cc:556-573 | whatever the random numbers, the shuffled deck holds each of the 52 cards once, closed |
| `KlondikeShuffle.EveryOrderIsDealt` | cards/cards.cc:567-573 | every order of the 52 closed cards comes out for some random numbers, number i of them at most i |
| `KlondikeShuffle.EachOrderOnce` | cards/cards.cc:567-573 | two runs of random numbers give the same order exactly when each number leads to the same exchange |
| `KlondikeRules.MoveRunTally` | cards/cards.cc:1616-1629 | moving a run between any piles keeps the number of times each card occurs |
| `KlondikeRules.MoveRunSound` | cards/cards.cc:1616-1643 | a legal move keeps the count of every card, the foundations ascending in suit, the columns descending in alternating colours below at most i closed cards, and, as long as no card is lost, every column top open |
| `KlondikeRules.PileBounds` | cards/cards.cc:668-723 | a foundation has at most 13 cards, column i at most i + 13, an open run at most 13 |
| `KlondikeRules.DraggedRunUp` | cards/cards.cc:700-723 | what may be dragged is a run of open cards, each fitting on the one before |
| `KlondikeFinish.SlotIsOwnSuit` | cards/cards.cc:689-697 | with no card twice and foundations in order, a card fits on the foundation of its suit exactly when it is the next one, and on no other |
| `KlondikeFinish.LiftEffect` | cards/cards.cc:801-820 | a foundation move takes one card off a pile and adds it to its suit, changes nothing else, and keeps the layout fit for the next such move |
| `KlondikeFinish.LiftsCommute` | cards/cards.cc:801-820 | foundation moves from two piles can be made in either order with the same outcome |
| `KlondikeFinish.AfterAnyLift` | cards/cards.cc:844-861 | after any first move, a dead end reached before is still reached, in one move less |
| `KlondikeFinish.DeadEndsAgree` | cards/cards.cc:844-861 | all orders of foundation moves that cannot be continued end in the same layout after the same number of moves |
| `KlondikeFinish.DeadEndDecides` | cards/cards.cc:844-867 | a dead end has all 52 cards up exactly when some order has |
| `KlondikeFinish.WinnableAfterLift` | cards/cards.cc:930-957 | no foundation move can spoil a layout from which all cards can go up |
| `KlondikeFinish.WinnableMoves` | cards/cards.cc:930-957 | such a layout has a move until all cards are up |
| `KlondikeFinish.WinnableIsWhole` | cards/cards.cc:833-868 | such a layout holds all 52 cards, so it never exists while cards are in the player's hand |
| `KlondikeFinish.SmallNeverWins` | cards/cards.cc:844-867 | a layout with fewer than 52 cards can never be won |
| `KlondikeBoard.DealKept` | cards/cards.cc:575-621 | dealing a shuffled deck establishes the invariant of the game |
| `KlondikeBoard.DealTally` | cards/cards.cc:575-590 | the deal puts every card of the deck in exactly one pile |
| `KlondikeBoard.DrawMoveSound` | cards/cards.cc:624-644 | drawing and turning back keep the layout sound, also while a run is in the player's hand |
| `KlondikeBoard.StartDragKept` | cards/cards.cc:1024-1049 | picking a run up keeps the invariant; laid back it gives the same layout |
| `KlondikeBoard.LandRunIsMove` | cards/cards.cc:1616-1629 | dropping the run is a legal move of the layout it was picked up from |
| `KlondikeBoard.ResizeConserves` | cards/cards.cc:1729-1740 | a resize keeps every card that is still in the game exactly when no run is in the player's hand |
| `KlondikeBoard.ResizeLoses` | cards/cards.cc:1736-1739 | the failing case is reached in every game: drag the open card of the last column and resize |
| `KlondikeBoard.DiscardKept` | cards/cards.cc:1736-1739 | after a resize during a drag the piles keep their shape, and the game can never be won any more |
| `KlondikeBoard.StaleDragConserves` | cards/cards.cc:1024-1047 | a drag started by a press past the end of a column keeps every card once exactly when its index is the count of the column |
| `KlondikeBoard.CancelKept` | cards/cards.cc:1637-1642 | a cancelled drag restores the layout from before it |
| `KlondikeBoard.LandFlightIsMove` | cards/cards.cc:974-985 | the landing of an animated card is a legal move of the layout it took off from |
| `KlondikeBoard.TopStays` | cards/cards.cc:1012-1022 | a double click on a foundation never moves a card |
| `KlondikeBoard.AutoMoves` | cards/cards.cc:959-972 | while the game finishes itself there is always a next card to send up |
| `KlondikeBoard.StepKept` | cards/cards.cc:1514-1740 | every event of a game, a resize during a drag included, keeps the invariant |
| `KlondikeBoard.ReachedInv` | cards/cards.cc:594-1740 | the invariant holds in every state any sequence of events can reach |
| `KlondikeBoard.CardsConserved` | cards/cards.cc:556-1049 | in every reachable state each card is in exactly one place: a pile, the player's hand, the air, or a run that a resize took away |
| `KlondikeBoard.PilesKeepShape` | cards/cards.cc:668-723 | in every reachable state piles fit their 24 slots, foundations 13, columns 19, the dragged run 13, and no drag happens during the auto-finish |
| `KlondikeBoard.TickProgress` | cards/cards.cc:1702-1722 | each tick of the auto-finish wins the game or brings it closer by at least one tick |
| `KlondikeBoard.PromiseKept` | cards/cards.cc:959-1009 | after nine ticks for each card not yet up, all cards are home and the game is won, whatever the lengths of the flights |
| `KlondikePlay.AutoStartsWhen` | cards/cards.cc:624-644 | after a draw that moves cards, a run dropped on a pile or the landing of a double-clicked card, the auto-finish is on exactly when the game is not won, the stock is empty, every column card is open and some order of foundation moves wins |
| `KlondikePlay.AutoKeptElse` | cards/cards.cc:959-1009 | no other event turns it on, and it goes off only with the win, a resize or a new game |
| `KlondikePlay.RequestedGameFinishes` | cards/cards.cc:833-1009 | in every reachable game: when such an event leaves that condition, 9 * (52 - cards up) ticks of the timer bring all cards home and win the game |
| `KlondikePlay.WonWhen` | cards/cards.cc:792-799 | the game is won in the event that brings the 52nd card up, and stays won until the next game |
| `KlondikePlay.DealtCards` | cards/cards.cc:575-590 | card j of column i is card i(i+1)/2 + j of the deck, open just for j = i; the stock is the last 24 |
| `KlondikePlay.OnceThrough` | cards/cards.cc:624-644 | drawing the stock out and turning back leaves its order and puts the old waste on top in reverse; with an empty waste every pile is as before |
| `KlondikePlay.DragWhenOpen` | cards/cards.cc:700-723 | in a game every open card of a column can be picked up with all that lie on it, of the waste and the foundations only the top card, and then exactly that run leaves the pile |
| `KlondikePlay.AcceptsIs` | cards/cards.cc:668-687 | a run in hand may go on the foundation of its suit if it is one card and the next one, on an open column top that is one higher and of the other colour, on an empty column if it starts with a king, and nowhere else |
| `KlondikePlay.DropLands` | cards/cards.cc:1616-1629 | the run lies on its new pile, the column it left shows its next card, and no other card has moved |
| `KlondikePlay.PickUpLetGo` | cards/cards.cc:1024-1049 | picking a run up and letting it go over no pile changes nothing |
| `KlondikePlay.DoubleClickFlies` | cards/cards.cc:1065-1078 | a double click sends the top card of the waste or a column up exactly when it is open and the next one of its suit, on a flight of six to eight steps |
| `KlondikePlay.FirstLift` | cards/cards.cc:930-957 | the next move is the waste if its top card is the next one of its suit, else the leftmost such column, and none only if there is none |
| `KlondikePlay.AutoSendsUp` | cards/cards.cc:959-972 | a tick of the auto-finish with nothing in the air sends exactly that card up |
| `KlondikePlay.FlightLasts` | cards/cards.cc:1705-1712 | a flight of s steps lands in tick s and until then only its step changes |
| `KlondikePlay.FlightLands` | cards/cards.cc:974-985 | the card lands as the next one on the foundation of its suit, the column it left shows its next card, and no other card has moved |
| `KlondikePlay.ColumnsAlternate` | cards/cards.cc:668-723 | in every reachable state the card on an open column card is open, one lower and of the other colour, and column i has at most i closed cards |
| `KlondikePlay.TopsOpen` | cards/cards.cc:1623-1629 | in every reachable state with nothing in hand or in the air, and no run lost by a resize, every column ends in an open card |
| `KlondikePlay.KingsStartColumns` | cards/cards.cc:676-679 | in every reachable state the bottom card of a column is a king or still the card dealt to it first |
| `KlondikeTable.Table.CanPlace` | cards/cards.cc:668-697 | decides exactly the rule for placing a card |
| `KlondikeTable.Table.CanDrag` | cards/cards.cc:700-723 | decides exactly whether the run from an index on may be dragged; for an index past the end only the slot in the array decides, and only in a column |
| `KlondikeTable.Table.SetCount` | cards/cards.cc:1045-1046 | setting the count cuts the pile off, or lets it grow over what the array still holds |
| `KlondikeTable.Table.FindFoundation` | cards/cards.cc:878-887 | the first foundation that accepts the card, or none when none does |
| `KlondikeTable.Table.MoveTopToFoundation` | cards/cards.cc:801-820 | moves the top card exactly when the index names it and some foundation takes it, and turns the next card of a column up; otherwise changes nothing |
| `KlondikeTable.Table.Round` | cards/cards.cc:846-860 | a round plays foundation moves, and if it plays none then none is possible from any pile |
| `KlondikeTable.Table.TrialRun` | cards/cards.cc:833-868 | terminates, and says yes exactly when some order of foundation moves puts all 52 cards up |
| `KlondikeTable.Table.AllColumnsUp` | cards/cards.cc:822-831 | says whether every card of every column is open |
| `KlondikeGame.Game.ShuffledDeck` | cards/cards.cc:556-573 | builds the deck and carries out the specified exchanges, one for each random number |
| `KlondikeGame.Game.DealOut` | cards/cards.cc:575-590 | the dealing loops produce the specified layout |
| `KlondikeGame.Game.StartGame` | cards/cards.cc:594-621 | from any state a new game is the deal of the deck shuffled by the random numbers, with no flag, drag or flight left over |
| `KlondikeGame.Game.DrawCard` | cards/cards.cc:624-644 | draws, recycles or does nothing, then asks for the auto-finish, and keeps the invariant |
| `KlondikeGame.Game.BeginDragging` | cards/cards.cc:1024-1049 | detaches exactly the run from the index on when it may be dragged; for an index past the end it says when a drag starts nevertheless, which stale cards the pile then gains, and that cards are doubled exactly when the index is beyond the count; otherwise changes nothing |
| `KlondikeGame.Game.NearestTarget` | cards/cards.cc:1581-1614 | finds an accepting pile no farther than any other accepting pile, and finds one if there is one in range |
| `KlondikeGame.Game.Release` | cards/cards.cc:1579-1650 | the run lands on the nearest accepting pile or goes back where it came from |
| `KlondikeGame.Game.BeginFlight` | cards/cards.cc:889-928 | refuses unless the index names the top card, the pile takes it and nothing flies; else takes the card off and lets it fly for six to eight steps |
| `KlondikeGame.Game.OnDoubleClick` | cards/cards.cc:1065-1078 | sends the top card to the foundation that takes it, if any |
| `KlondikeGame.Game.FindNextMove` | cards/cards.cc:930-957 | the waste first, then the first column with a card that can go up, and none only when no card can |
| `KlondikeGame.Game.BeginAutoMove` | cards/cards.cc:959-972 | sends the next card up exactly when the auto-finish is on, nothing flies and some card can go up |
| `KlondikeGame.Game.FinishFlight` | cards/cards.cc:974-1009 | lands the card, checks for the win and stops or requests the auto-finish |
| `KlondikeGame.Game.CanAutoFinishGame` | cards/cards.cc:833-868 | says yes exactly for an unwon game with an empty stock, open columns and some winning order |
| `KlondikeGame.Game.RequestAutoFinish` | cards/cards.cc:870-876 | turns the auto-finish on exactly when it is off, nothing flies and the game can finish; what that comes to at each event is `AutoStartsWhen` |
| `KlondikeGame.Game.OnTimer` | cards/cards.cc:1702-1722 | one tick of the flight or of the auto-finish, keeping the invariant |
| `KlondikeGame.Game.OnResize` | cards/cards.cc:1729-1740 | lands the card in flight, stops the auto-finish and forgets a run in the player's hand |
| `MineRules.NewGameKept` | mine/mine.cc:225-244 | a fresh board satisfies the invariant |
| `MineRules.RevealKept` | mine/mine.cc:400-424 | a reveal keeps the invariant: counters, numbers, marks and the verdict on the game |
| `MineRules.ToggleKept` | mine/mine.cc:426-444 | a flag keeps the invariant |
| `MineRules.ChordKept` | mine/mine.cc:458-486 | a chord keeps the invariant |
| `MineRules.ReachedInv` | mine/mine.cc:225-486 | in every reachable state the open and flag counters are right, every number is the true count, nothing is open and flagged short of a shown mine, and a game is won exactly when every safe cell is open |
| `MineRules.RegionWithin` | mine/mine.cc:367-397 | the region is the smallest set that holds the start and the closed neighbours of its zero cells |
| `MineRules.ZeroTouchesNoMine` | mine/mine.cc:379-390 | a safe zero cell has no mine next to it |
| `MineFlood.MineTestIdle` | mine/mine.cc:383-395 | on a numbered board the mine test of the flood never rejects a cell: a zero cell asks for every neighbour without a flag |
| `MineRules.FlagsMatchMines` | mine/mine.cc:467-469 | past the flag-count test some flag around is wrong exactly when some mine around is not flagged |
| `MineRules.ChordDecides` | mine/mine.cc:458-486 | a chord past the test loses exactly when a flag around is wrong; otherwise every safe neighbour is open afterwards, even if the game is won on the way |
| `MineRules.AcceptableRemains` | mine/mine.cc:270-287 | while mines are missing some cell passes all three rejections |
| `MineScan.DrawsExist` | mine/mine.cc:270-287 | there are always random numbers that lay any number of mines up to the wanted one |
| `MineScan.DrawnGood` | mine/mine.cc:274-284 | whatever the random numbers, the mines keep off the first cell, and off its block when there is room |
| `MineRules.FirstRevealSafe` | mine/mine.cc:253-306 | the first reveal never loses and opens its cell, and with room elsewhere opens every cell of the block that carries no flag |
| `MinePlay.NumbersAreTrue` | mine/mine.cc:289-305 | in every reachable state of a started game the number of a safe cell is how many of the eight cells around it are mines |
| `MinePlay.CountersAreTrue` | mine/mine.cc:225-456 | in every reachable state the counters are the numbers of open safe cells and of flags, and the mines are as many as the level says |
| `MinePlay.FirstRevealOpens` | mine/mine.cc:253-306 | the same with the room counted out: the block has (1 to 3) times (1 to 3) cells, and when the mines fit outside it the whole block is opened but for its flags; the mines are where they were laid |
| `MinePlay.LaidFirst` | mine/mine.cc:410-414 | the first reveal is a reveal on the board with the mines laid and every safe cell numbered |
| `MinePlay.RevealHits` | mine/mine.cc:308-321 | revealing a mine opens every mine, marks the flags on safe cells as wrong and the cell itself as exploded, and changes nothing else |
| `MinePlay.RevealOpens` | mine/mine.cc:354-398 | revealing a safe cell opens the least set of cells that holds it and, of each member that touches no mine, all neighbours that are closed and not flagged; none of them is a mine or flagged, and the game is not lost |
| `MinePlay.RevealLeaves` | mine/mine.cc:354-424 | it leaves all else as it was, except that a win flags every mine |
| `MinePlay.ToggleTwice` | mine/mine.cc:426-444 | toggling a flag twice is doing nothing |
| `MinePlay.ChordOutcome` | mine/mine.cc:458-486 | a chord acts exactly on an open cell whose number is that of the flags around and not 0; it loses exactly when one of those flags is wrong, else every safe neighbour is open afterwards |
| `MinePlay.ChordSpreads` | mine/mine.cc:458-486 | a chord that does not lose opens the least set that holds the closed cells around without a flag and spreads from them by the same rule |
| `MinePlay.ReachedVerdict` | mine/mine.cc:308-321 | in every reachable state: in a lost game every mine is open, the cells marked wrong are the flagged safe ones, and one cell, a mine, has exploded; otherwise no mine is open and nothing is marked |
| `MinePlay.WonWhen` | mine/mine.cc:323-352 | in every reachable state the game is won exactly when it was started, is not lost and every safe cell is open, and then the flags stand on the mines only |
| `MinePlay.DrawLeads` | mine/mine.cc:273-275 | every random number that leaves r * columns + c by the size of the board leads to the cell in row r and column c |
| `MinePlay.DrawLays` | mine/mine.cc:276-286 | it lays a mine there unless that is the first cell, or touches it while all mines fit elsewhere |
| `MineFlood.DoneIsRegion` | mine/mine.cc:354-398 | when the queue runs empty the cells opened are exactly those reachable by the rule |
| `MineFlood.FloodOpens` | mine/mine.cc:372-395 | opening a cell and queueing its neighbours keeps what was opened and what is still to come in step |
| `MineFlood.FloodFits` | mine/mine.cc:355-365 | no cell is queued twice, so the queue never outgrows the board |
| `MineFlood.FloodEnds` | mine/mine.cc:367-398 | an empty queue means the board is opened on exactly the region, and as many cells were counted |
| `Minefield.Board.StartGame` | mine/mine.cc:214-244 | any board within the storage becomes the fresh board of that size |
| `Minefield.Board.CountProtected` | mine/mine.cc:253-263 | the number of cells of the block that lie on the board |
| `Minefield.Board.PlaceMines` | mine/mine.cc:265-306 | the mines are the first cells drawn that are not rejected, exactly the wanted number, none on the start, none in its block when there is room, and every safe cell is numbered |
| `Minefield.Board.ScatterMines` | mine/mine.cc:266-287 | the drawing loop lays exactly the mines that the random numbers it used stand for |
| `Minefield.Board.DrawOne` | mine/mine.cc:271-286 | one turn of the loop: a rejected draw changes nothing, any other lays one new mine |
| `Minefield.Board.CountNeighborMines` | mine/mine.cc:295-303 | the number of mines around a cell |
| `Minefield.Board.CountNeighborFlags` | mine/mine.cc:446-456 | the number of flags around a cell |
| `Minefield.Board.FloodOpen` | mine/mine.cc:354-398 | opens exactly the closed, unflagged, safe cells reachable over zero cells and raises the counter by their number |
| `Minefield.Board.LoseAt` | mine/mine.cc:308-321 | does to the board what `RevealHits` tells of a revealed mine |
| `Minefield.Board.FinishWin` | mine/mine.cc:323-343 | a win flags every mine and sets the flag counter to their number |
| `Minefield.Board.CheckForWin` | mine/mine.cc:345-352 | wins exactly when the game is not lost and the open count reaches the safe cells |
| `Minefield.Board.RevealCell` | mine/mine.cc:400-424 | reports whether it did anything, lays good mines on the first reveal, and does the specified reveal |
| `Minefield.Board.ToggleFlag` | mine/mine.cc:426-444 | flips the flag of a closed cell of a running game and its counter and says so; otherwise changes nothing and says so |
| `Minefield.Board.ChordCell` | mine/mine.cc:458-486 | the nine reveals in order, or nothing when the test fails; the result says whether any cell was opened, which is whether anything changed |
| `BrowserList.MoveBack` | fltk/src/Fl_Browser.cxx:176-179 | moving a line and moving it back restores the order |
| `BrowserList.MovedLands` | fltk/src/Fl_Browser.cxx:176-179 | the moved line gets the number asked for, or the nearest from 1 to lines, and the others keep their order |
| `BrowserList.InsertedLands` | fltk/src/Fl_Browser.cxx:136-164 | an inserted line gets the number asked for, or the nearest from 1 to lines + 1, and the others keep their order |
| `BrowserList.Browser.FindLine` | fltk/src/Fl_Browser.cxx:71-86 | in a list with lines, the line with that number, wherever the walk starts, or none for a number out of range; the cache is right afterwards exactly for the numbers 0 to lines |
| `BrowserList.Browser.LineNo` | fltk/src/Fl_Browser.cxx:88-113 | the number of a listed line, found after finitely many steps; for the line in the cache whatever number the cache has |
| `BrowserList.Browser.Search` | fltk/src/Fl_Browser.cxx:98-109 | the search in both directions meets the line and counts right |
| `BrowserList.Browser.Unlink` | fltk/src/Fl_Browser.cxx:115-129 | takes out exactly that line; links, ends, count and cache agree with the rest |
| `BrowserList.Browser.RemoveLine` | fltk/src/Fl_Browser.cxx:131-134 | removes a line with a number in range and nothing otherwise |
| `BrowserList.Browser.InsertLine` | fltk/src/Fl_Browser.cxx:136-164 | for every number the line goes to the right place; the cache is right afterwards exactly for the numbers 1 to lines + 1 |
| `BrowserList.Browser.InsertAndNumber` | fltk/src/Fl_Browser.cxx:136-164 | the number reported for a line after its insertion is right exactly when it was inserted with a number from 1 to lines + 1 |
| `BrowserList.Browser.InsertPastEnd` | fltk/src/Fl_Browser.cxx:159-160 | an example: the only line of a list is reported to be line 5 |
| `BrowserList.Browser.InsertText` | fltk/src/Fl_Browser.cxx:166-174 | a new, shown, unselected line with that text and data at the right place |
| `BrowserList.Browser.Add` | fltk/src/Fl_Browser.cxx:445-448 | appends a line and keeps the cache right |
| `BrowserList.Browser.MoveLine` | fltk/src/Fl_Browser.cxx:176-179 | takes the line out and puts it in as `MovedLands` tells, nothing for a line out of range; the cache stays right exactly when the target number is in range or nothing moves |
| `BrowserList.Browser.SetText` | fltk/src/Fl_Browser.cxx:181-201 | changes the text of one line, keeps its data, marks and place, and leaves all others alone; the line is allocated anew exactly when the text does not fit |
| `BrowserList.Browser.SwapLines` | fltk/src/Fl_Browser.cxx:503-540 | exchanges two lines, adjacent either way, apart or at the ends, and leaves a right cache |
| `BrowserList.Browser.SwapNumbers` | fltk/src/Fl_Browser.cxx:542-547 | the same by numbers, and nothing for numbers out of range |
| `BrowserList.Browser.SetHidden` | fltk/src/Fl_Browser.cxx:470-486 | hides or shows one line only |
| `BrowserList.Browser.Clear` | fltk/src/Fl_Browser.cxx:433-443 | empties the list and leaves cache and last behind, harmlessly |
| `BrowserScroll.SpansUnique` | fltk/src/Fl_Browser_.cxx:151-165 | a pixel belongs to at most one item |
| `BrowserScroll.EdgesInside` | fltk/src/Fl_Browser_.cxx:231-259 | each of the three positions the search may choose shows the whole item |
| `BrowserScroll.TargetMeans` | fltk/src/Fl_Browser_.cxx:213-260 | an item wholly inside the window does not move it; one partly below comes flush with the lower edge, one partly or just above with the upper edge, and any other is centred |
| `BrowserScroll.Scroller.SetPosition` | fltk/src/Fl_Browser_.cxx:186-191 | asks for a position, never a negative one |
| `BrowserScroll.Scroller.UpdateTop` | fltk/src/Fl_Browser_.cxx:131-182 | whichever end the walk starts from, the position becomes the smaller of the request and the last pixel, and the top item is the one that spans it |
| `BrowserScroll.Scroller.Displayed` | fltk/src/Fl_Browser_.cxx:201-209 | says whether the item is the top one or a later one that starts above the lower edge; no before there is a top item |
| `BrowserScroll.Scroller.Display` | fltk/src/Fl_Browser_.cxx:213-260 | asks for that position; an item no taller than the window then lies wholly inside it, and the window stays where it is if the item was inside already |
| `BrowserScroll.Scroller.SearchBothWays` | fltk/src/Fl_Browser_.cxx:231-260 | the search up and down at once finds the item with its true offset |
| `BrowserScroll.Scroller.Show` | fltk/src/Fl_Browser_.cxx:131-260 | displaying an item and updating leaves it wholly in the window |
| `AudioRing.Ring.DropOldest` | nesemu/main.cpp:306-318 | drops that many frames from the front, or all |
| `AudioRing.Ring.Enqueue` | nesemu/main.cpp:320-350 | leaves the last N frames of what was there followed by what came, in every size case; nothing for no data |
| `AudioRing.Ring.Store` | nesemu/main.cpp:340-349 | the copy loop, round the end of the array, appends exactly the frames |
| `AudioRing.Ring.Dequeue` | nesemu/main.cpp:352-373 | takes out the first frames in order, at most the wanted number, and leaves the rest |
| `AudioRing.Ring.CopyOut` | nesemu/main.cpp:358-368 | the two-piece copy delivers the first frames in order |
| `AudioProtocol.StepKept` | nesemu/main.cpp:375-416 | every atomic step of either side keeps the account of the frames |
| `AudioProtocol.ReachedInv` | nesemu/main.cpp:375-689 | in every interleaving the generated frames are, in order, those delivered or dropped, the ring, and the partial buffer; and the thread leaves only an empty ring |
| `AudioProtocol.PickSettled` | nesemu/main.cpp:388-393 | writing what the thread holds appends it to what was written, in order |
| `AudioProtocol.ClosedIsSettled` | nesemu/main.cpp:621-645 | after a close every generated frame was handed to the device, in order, or was dropped |
| `AudioProtocol.ClosedIsWhole` | nesemu/main.cpp:578-689 | a closed session has written every frame it generated if and only if its ring never overflowed and no open ended it with frames in the partial buffer |
| `AudioProtocol.DropsWhen` | nesemu/main.cpp:335-338 | a step drops frames exactly when the ring overflows or an open without a close finds frames in the partial buffer |
| `AudioProtocol.OverflowDrops` | nesemu/main.cpp:320-350 | handing the buffer to the ring drops the oldest frames beyond 11760, as many as there are too many and no others, and the ring keeps the rest in order |
| `AudioProtocol.NextSteps` | nesemu/main.cpp:375-689 | which steps are open to the emulator and the thread in each phase |
| `AudioProtocol.NeverStuck` | nesemu/main.cpp:375-689 | in no reachable state are both at a stop |
| `AudioProtocol.JoinCloses` | nesemu/main.cpp:405-416 | after the join the session is closed with nothing left in ring, buffer or hand, and nothing more written |
| `AudioProtocol.DrainEnds` | nesemu/main.cpp:405-416 | once asked to stop, the thread gets to its end, with an empty ring, after a bounded number of its steps |
| `AudioProtocol.JoinKept` | nesemu/main.cpp:414-415 | when the thread has ended nothing but the frames of the partial buffer is forgotten |
| `AudioOutput.FiveChannelsNeverClip` | nesemu/main.cpp:657-670 | the mix of five channels never reaches the clipping limits |
| `AudioOutput.MixOfFive` | nesemu/main.cpp:653-670 | a mixed sample is 51 times the sum over the five channels of the value at that sample less 128, an absent channel adding nothing |
| `AudioOutput.AbsentIsSilent` | nesemu/main.cpp:658-662 | an absent channel changes no mix, of however many channels |
| `AudioOutput.Output.SoundOpen` | nesemu/main.cpp:592-618 | starts a session with empty buffers, or changes nothing when the device does not open |
| `AudioOutput.Output.PcmWrite` | nesemu/main.cpp:203-245 | the device as a sink: it takes the frames in order |
| `AudioOutput.Output.SoundOutput` | nesemu/main.cpp:648-689 | generates one frame for each of at most 735 samples, in order, both sides the mix of that sample, handing over full buffers on the way; nothing without a device |
| `AudioOutput.Output.HandOver` | nesemu/main.cpp:678-687 | the partial buffer goes to the ring, or is written to the device when there is no thread |
| `AudioOutput.Output.CloseFirst` | nesemu/main.cpp:624-633 | a close hands over what is left in the buffer first |
| `AudioOutput.Output.TakeFrames` | nesemu/main.cpp:383-386 | the locked region of the thread is the specified atomic step |
| `AudioOutput.Output.UseFrames` | nesemu/main.cpp:388-399 | what follows writes the frames to the device, leaves or waits as specified; the device has exactly the frames recorded as delivered |
| `AudioOutput.Output.AskThreadToLeave` | nesemu/main.cpp:405-412 | a close, and an open during a session, asks the thread, if there is one, to leave, and does nothing else |
| `AudioOutput.Output.AfterJoin` | nesemu/main.cpp:414-415 | resetting the ring after the thread has ended drops no frame of it; with an empty partial buffer, as in a close, no frame at all |
| `TimeoutRules.InsertIsStable` | fltk/src/Fl.cxx:194-197 | a new timeout goes after all that are due no later and before all that are due later, and the list stays sorted |
| `TimeoutRules.WithoutKeeps` | fltk/src/Fl.cxx:206-219 | removal drops exactly the matches, every other entry stays as often as it was |
| `TimeoutRules.RemovedAre` | fltk/src/Fl.cxx:206-219 | the matches are the timeouts of the callback with the argument, or with any argument for argument 0 |
| `TimeoutRules.HasAfterRemove` | fltk/src/Fl.cxx:200-219 | after a removal a callback and argument are listed exactly when they were before and are not among those |
| `TimeoutRules.WaitMakesDue` | fltk/src/Fl.cxx:332-353 | when a wait begins on a running clock, something is due exactly when the moment of the first timeout has come |
| `TimeoutRules.WithoutSorted` | fltk/src/Fl.cxx:206-219 | removal keeps the order |
| `TimeoutRules.ElapseSorted` | fltk/src/Fl.cxx:155-168 | a clock reading keeps the order |
| `TimeoutRules.FiredIsFirst` | fltk/src/Fl.cxx:334-347 | what is fired is due and no other timeout is due before it |
| `TimeoutPace.AsideMovesDue` | fltk/src/Fl.cxx:155-219 | operations on other timeouts leave the moment a timeout is due unchanged; a clock reading moves it only after a pause, by the time that does not count, or when the clock was set back, by as much |
| `TimeoutRules.StepKept` | fltk/src/Fl.cxx:155-219 | every operation, also one made by a callback, keeps the list sorted and the lateness not positive |
| `TimeoutExpiry.CallsAllDue` | fltk/src/Fl.cxx:335-349 | the same on values: what is called are the due entries in order, and every time left is positive |
| `TimeoutExpiry.CalledAre` | fltk/src/Fl.cxx:335-349 | the callbacks called are those of the timeouts with no time left, with their arguments, in order, and no other |
| `TimeoutExpiry.QuietIsCalm` | fltk/src/Fl.cxx:335-349 | callbacks that do nothing with timeouts meet the condition |
| `TimeoutPace.AsideKeepsDue` | fltk/src/Fl.cxx:155-168 | the moment stays the same exactly when no reading moves it |
| `TimeoutPace.RepeatKeepsPace` | fltk/src/Fl.cxx:181-198 | a handler that repeats itself first of all is due one period after it was due, unless that moment is more than 0.05 past; then it is due at once |
| `TimeoutPace.AddingFirstDrifts` | fltk/src/Fl.cxx:176-182 | the failing case: a callback that adds another timeout before it repeats itself is late by what the clock has moved on |
| `TimeoutPace.AddedDue` | fltk/src/Fl.cxx:174-182 | a new timeout is due after its time exactly when the last callback was on time, or, if it is clamped, when its time was 0 |
| `TimeoutPace.Pace` | fltk/src/Fl.cxx:155-219 | over any run with n repetitions, with anything done to other timeouts and any clock reading between them and inside the callback, a handler stands n periods after its first moment plus the recorded slips |
| `TimeoutPace.SlipIsLoss` | fltk/src/Fl.cxx:155-219 | going forward no act brings a handler ahead of its pace, and each leaves it there exactly under a condition on the state before it |
| `TimeoutPace.NoDrift` | fltk/src/Fl.cxx:170-198 | while the clock is not set back and no time asked for is negative, a handler that repeats itself n times is due exactly n periods after its first moment if and only if each repetition is not too late and is made while the last clock reading plus the recorded lateness still is the moment the handler was due, and no reading after a pause moves it |
| `Timeouts.Timers.ElapseTimeouts` | fltk/src/Fl.cxx:155-168 | takes the elapsed time off every timeout, except at the first reading after a pause |
| `Timeouts.Timers.RepeatTimeout` | fltk/src/Fl.cxx:181-198 | a spare or new node with the corrected time, linked in at the sorted place |
| `Timeouts.Timers.AddTimeout` | fltk/src/Fl.cxx:176-179 | the same after a clock reading |
| `Timeouts.Timers.HasTimeout` | fltk/src/Fl.cxx:200-204 | says whether a timeout with exactly that callback and argument is listed |
| `Timeouts.Timers.RemoveTimeout` | fltk/src/Fl.cxx:206-219 | drops every timeout of the callback with the argument, or with any for argument 0; its nodes become spare, and both chains stay acyclic and apart |
| `Timeouts.Timers.Unlink` | fltk/src/Fl.cxx:212-214 | moves one node from the live chain to the front of the spare chain |
| `Timeouts.Timers.FireFirst` | fltk/src/Fl.cxx:335-347 | the first due timeout is off the list, and the lists are whole, before its callback runs |
| `Timeouts.Timers.Expire` | fltk/src/Fl.cxx:335-349 | if no callback makes anything due or takes from what is due, the loop ends, has called everything that was due in the order of the list, and leaves nothing due |
| `Timeouts.Timers.BeginWaiting` | fltk/src/Fl.cxx:332-353 | reads the clock when there are timeouts; otherwise pauses it |
| `DrawLine.StepKept` | doom/doom.cpp:243-250 | away from the end every turn advances along the longer side, and the deviation stays within half a step |
| `DrawLine.EndsTogether` | doom/doom.cpp:239-241 | both coordinates arrive in the same turn |
| `DrawLine.OtherSide` | doom/doom.cpp:239-250 | the deviation bound fixes the shorter coordinate as the rounded share of the longer one |
| `DrawLine.Line` | doom/doom.cpp:233-252 | terminates for all end points and visits the ideal rounded points, one for each step of the longer side, one after another |
| `DrawLine.LineJoins` | doom/doom.cpp:233-252 | those points start and end where they should, go from neighbour to neighbour and stay within half a pixel of the true line; at exactly half, the point farther along the shorter side is taken |
| `BitmapCopy.Advance` | fltk/src/Fl_Bitmap.cxx:493-499 | adding the quotient and the remainder, with the carry, is one step of the proportion |
| `BitmapCopy.PickIs` | fltk/src/Fl_Bitmap.cxx:467-499 | the accumulated position is the floor of the proportional one |
| `BitmapCopy.ScaleRow` | fltk/src/Fl_Bitmap.cxx:481-502 | a row of the copy takes its pixels from the proportional columns, its padding stays dark, nothing else is touched, and the pointer ends at the next row |
| `BitmapCopy.SameSizeScales` | fltk/src/Fl_Bitmap.cxx:442-451 | the plain copy for an unchanged size obeys the same rule |
| `BitmapCopy.Copy` | fltk/src/Fl_Bitmap.cxx:438-513 | no copy exactly for another size that is not positive; otherwise a fresh one whose pixel (x, y) is pixel (x*w/W, y*h/H) of the source, which is in range |
| `BitmapCopy.CopiedPixel` | fltk/src/Fl_Bitmap.cxx:438-513 | the same told by bytes and bits: rows of (width + 7) / 8 bytes, the lowest bit leftmost |
| `BitmapCopy.PaddingDark` | fltk/src/Fl_Bitmap.cxx:481-502 | the bits after the last column are dark |
| `ColorConvert.HueSector` | fltk/src/Fl_Color_Chooser.cxx:78-82 | the hue tells which channels are greatest and least and where the middle one lies, ties included |
| `ColorConvert.RoundTrip` | fltk/src/Fl_Color_Chooser.cxx:50-84 | for channels that are not negative and a prior hue on the circle, converting there and back is exact exactly when the saturation is 0 or at least 5e-6, and otherwise within 5e-6 of the value in every channel |
| `ColorConvert.RoundTripHsv` | fltk/src/Fl_Color_Chooser.cxx:50-84 | converting a hue, saturation and value short of grey and black there and back is exact |
| `ColorConvert.FirstSectors` | fltk/src/Fl_Color_Chooser.cxx:50-69 | from red to yellow green rises, from yellow to green red falls |
| `ColorConvert.HueTurns` | fltk/src/Fl_Color_Chooser.cxx:50-69 | a turn of the hue by 2 moves each channel to the next |
| `ColorConvert.PureHues` | fltk/src/Fl_Color_Chooser.cxx:50-69 | red, yellow, green, cyan, blue and magenta are the hues 0 to 5 |
| `ColorConvert.WrappedInside` | fltk/src/Fl_Color_Chooser.cxx:144-144 | the hue is turned by whole circles onto the first, and a hue on it stays |
| `ColorConvert.ToHsvInRange` | fltk/src/Fl_Color_Chooser.cxx:71-84 | the result is a hue on the circle, a saturation from 0 to 1 and a value that is not negative |
| `ColorConvert.Chooser.SetRgb` | fltk/src/Fl_Color_Chooser.cxx:122-141 | takes the colour, says whether it changed, and keeps the two forms within 5e-6 of the value of each other |
| `ColorConvert.Chooser.SetHsv` | fltk/src/Fl_Color_Chooser.cxx:143-165 | takes the wrapped and clamped values, says whether they changed, and keeps the two forms together |

## Left out

- Klondike: layout, hit testing, click timing, drawing, score, move counter and the victory animation; the length of a flight and the distances to the piles are parameters.
- KlondikeBoard.StepKept: a drag started by a press that was held while its column shrank, past the new end (cards/cards.cc:1571-1573), is not an event of the runs, because the column then may hold cards twice; `StaleDragConserves` and `BeginDragging` say exactly when. That a game reaches such a press with an open card in the slot is not shown, and the drop of the empty run is not modelled.
- KlondikeGame.Game.ShuffledDeck: the random numbers are arbitrary; how likely each of them is, is not stated.
- Minesweeper: the three fixed levels, elapsed seconds, mouse handling and drawing; any board within the storage with a safe cell is allowed.
- Minefield.Board.RevealCell: the random numbers of the first reveal are a finite sequence that leads to enough different cells; how soon that happens is not stated.
- Browser: item heights from the text, full_height, the hooks into the scrolling base when lines are deleted or inserted, selection, lineposition, and reading a file.
- BrowserList.Browser.FindLine: not asked on an emptied list, where the source follows the stale cache or last line; `SetHidden` is not asked for a number out of range, where the source follows no line.
- BrowserScroll.Scroller.UpdateTop: quick and slow heights are the same, so the final loop that compares them (fltk/src/Fl_Browser_.cxx:167-174) ends in its first turn; the list is fixed and shows at least one item; a hidden last item can stay at the top past the end.
- Horizontal scrolling, scrollbars and repaint flags.
- Audio: the device is a sink that takes everything; its parameters and the sleep of the thread are left out; lock regions are single steps.
- AudioProtocol.DrainEnds: the bound counts the steps of the thread; that the system schedules it is taken for granted.
- Timeouts: checks, idle callbacks, the wait itself and the two list counters, which the source only counts down or up in some places and never reads.
- Timeouts.Timers.Expire: callbacks are sequences of the operations an event may carry; a loop that a callback keeps busy by adding timeouts that are due at once has no end, so it is modelled turn by turn (`FireFirst`) beyond the condition.
- TimeoutPace.NoDrift: operations on the handler's own timeout other than its repetition are not part of the runs.
- Time values are real numbers, so a clock reading subtracts exactly.
- DrawLine.Line: coordinates are unbounded integers; painting a square at each point, and its clipping, are left out.
- BitmapCopy.Copy: sizes are unbounded integers, and an original of no width or height is not scaled to a positive size, for which the source reads outside the array.
- ColorConvert.RoundTrip: channels are real numbers, so rounding of doubles is not modelled.
- The hue box, value box and input fields of the chooser, and the 8-bit image they paint.
- Ray casting and enemies of the game in doom, the emulator core, and everything that draws or talks to the kernel: foreign code or easy members only.
