# CO₂ tracker core in Dafny

This project models the core of a small carbon-footprint tracker. Users sign up, log emission entries (transport, diet, electricity and other activities), and browse a dashboard. They also earn points, levels and achievements. The web pages, charts and session handling are left out. What remains is modelled as follows.

- **`Entries`** (`entries.dfy`): the entry record and the operations several pages share.
  - Sums of `co2_amount`.
  - List filters and a stable date sort.
  - The `groupby(...)['co2_amount'].sum()` group sums.
  - Python's `str.strip()`.
- **`Database`** (`database.dfy`): the record store as an in-memory class `DatabaseManager`.
  - A user table (name to password hash) and the entry table as a sequence of rows with an id counter.
  - A rewards table, with its defaults and upsert.
  - Sign-up with a unique name, adding and listing entries, ownership-checked deletion and per-user clearing.
- **`Co2Tracker`** (`co2_tracker.dfy`): the emission formulas of the four tracker forms, over `real`, with their factor tables.
  - Also the validation of the detailed entry form.
  - Also the filtered, newest-first entry history.
- **`Dashboard`** (`dashboard.dfy`): the key metrics and chart data.
  - The total, the day-span average and the entry count, with their colour bands.
  - The most frequent category.
  - The daily, per-category and monthly sums.
  - The five most recent activities.
- **`RewardSystem`** (`rewards.dfy`): the first rewards page.
  - The capped level step function.
  - The five-rule achievement table, with set-once unlocking and exact point accounting.
  - The weekly improvement bonus, with its best-week record.
  - The order in which the page calls these and saves the result.
- **`FunRewards`** (`rewards_new.dfy`): the second rewards page.
  - The level threshold table and its lookup loop.
  - The points-to-next-level card.
  - The weekly grade bands.
  - The smaller achievement table and its write.
- **`Auth`** (`auth.dfy`): the ordered sign-up guards followed by the store write, and login as existence plus a password check.

Calendar keys, the clock and password hashing are parameters:
- a week key is a function `weekOf` from days to (year, week) pairs, ordered lexicographically;
- a month key is a function `monthOf`;
- the current time is a `now` or `since` argument;
- hashing is a `passwordHash` argument and a `verify` function.

## Model

| member | source | states |
|---|---|---|
| Entries.TotalConcat | dashboard.py:57 | the sum of a concatenation is the sum of its parts |
| Entries.TotalNonNegative | dashboard.py:57 | with non-negative amounts the total is non-negative |
| Entries.Filter | co2_tracker.py:688-696 | a filter keeps only elements of the input that pass the test, and never grows |
| Entries.FilterCount | co2_tracker.py:688-696 | a filter keeps every copy of each passing element and drops every copy of each failing one |
| Entries.FilterSplits | rewards_new.py:161-162 | a test and its negation split the entries: the two sides together hold every entry exactly once, and their sizes and totals add up |
| Entries.FilterPermutation | co2_tracker.py:688-696 | filtering two permutations of each other gives permutations of each other |
| Entries.FilterAppend | co2_tracker.py:688-696 | filtering a list with one appended element is the filter of the prefix plus that element when it passes |
| Entries.Insert | co2_tracker.py:663 | inserting one entry adds exactly that entry to the multiset |
| Entries.InsertSorted | co2_tracker.py:663 | inserting into a date-sorted list keeps it sorted |
| Entries.SortByDate | dashboard.py:33 | the sorted list is a permutation of the input and ordered by date, oldest or newest first |
| Entries.InsertOnDate | co2_tracker.py:663 | inserting passes over entries of other dates only: among the entries of one date the inserted one comes first and the rest keep their order |
| Entries.InsertFilter | co2_tracker.py:663 | under a test that the inserted entry passes only together with entries it may precede, the inserted entry comes first among those that pass and the others keep their order |
| Entries.FilterPastOther | co2_tracker.py:663 | passing over an element that never passes the test together with the inserted one does not change where the inserted one lands among those that pass |
| Entries.FilterCons | co2_tracker.py:688-696 | the comprehension on a sequence with one more element in front keeps that element exactly when it passes |
| Entries.SortByDateStable | co2_tracker.py:663 | the sort is stable: for every date, the entries with that date come out in the order they went in |
| Entries.FilterSorted | co2_tracker.py:688-696 | filtering a date-sorted list keeps it sorted |
| Entries.RemoveOneMultiset | dashboard.py:33 | taking out of one arrangement an entry equal to the last of another leaves the same entries as the rest of the other |
| Entries.RemoveOneTotal | dashboard.py:57 | taking out one entry lowers the total by exactly its amount |
| Entries.TotalPermutation | dashboard.py:33 | reordering the entries does not change their total |
| Entries.GroupTotalsKeys | dashboard.py:124 | the group sums have a key exactly for each key that occurs among the entries |
| Entries.GroupTotalsSnoc | rewards.py:121-125 | one more entry adds its amount to its own key's sum and leaves the other sums alone |
| Entries.GroupTotalsCorrect | dashboard.py:124 | each group's sum is the total of exactly the entries with that key |
| Entries.EmptyGroup | dashboard.py:124 | a key that does not occur selects no entries |
| Entries.MapSumRemove | dashboard.py:146 | the sum of a map's values does not depend on the order its keys are taken in |
| Entries.GroupTotalsAddUp | dashboard.py:146 | the group sums add up to the total of all entries |
| Entries.SkipSpaces | auth.py:28 | from a position, skips exactly the run of whitespace that follows |
| Entries.SkipSpacesBack | auth.py:28 | back from a position, down to a lower bound, skips exactly the run of whitespace that precedes it |
| Entries.LeadingSpaces | auth.py:28 | counts the maximal whitespace prefix |
| Entries.Strip | auth.py:28 | the result is the input without its leading and trailing whitespace, and neither starts nor ends with whitespace |
| Entries.StripUnpadded | auth.py:28 | a string that neither starts nor ends with whitespace is its own strip |
| Database.DefaultRewards | database.py:240-251 | a missing rewards record reads as 0 points, level 1, no badges, achievements or goals, no last date and best week `{week: None, reduction: 0}` |
| Database.Applied | database.py:259-284 | a saved record takes every given field as given and the last entry date as given (None when missing); a missing key defaults to 0 points, level 1, no badges, no achievements, 0 streak days, no monthly goals and an empty best week |
| Database.Full | database.py:259-284 | saving a complete record stores exactly that record |
| Database.NewEntry | database.py:130-151 | a stored entry takes the given fields, the next id, entry type "quick" when none is given, and the current time when no timestamp is given |
| Database.EntriesOfExactly | database.py:162-187 | a user's entries are exactly the stored rows owned by that user |
| Database.EntriesOfAppend | database.py:162-187 | adding a row appends it to its owner's entries and to no one else's |
| Database.EntriesOfConcat | database.py:162-187 | listing distributes over concatenated tables |
| Database.ClearOnlyTouchesOwner | database.py:214-216 | after clearing, the owner has no entries and every other user's entries are unchanged |
| Database.FilterKeepsIds | database.py:214-216 | removing rows keeps ids unique and below the next id |
| Database.RemoveMatching | database.py:195-203 | removing the matching row leaves exactly the rows that do not match both id and owner |
| Database.RemoveKeepsIds | database.py:195-203 | removing one row keeps ids unique and below the next id |
| Database.ConsKeepsIds | database.py:214-216 | a row whose id is below the next id and below every later id keeps the ids increasing when put in front |
| Database.DatabaseManager.constructor | database.py:67-71 | the store starts with no users, entries or rewards |
| Database.DatabaseManager.CreateUser | database.py:86-98 | succeeds iff the name is not yet a user, stores the hash only then, and changes nothing else |
| Database.DatabaseManager.GetUser | database.py:100-107 | finds the user iff the name is in the user table, with its stored hash |
| Database.DatabaseManager.AddCo2Entry | database.py:125-156 | a storable entry is appended under the user with the next id; otherwise nothing changes |
| Database.DatabaseManager.GetUserCo2Entries | database.py:158-189 | returns exactly the user's entries in table order |
| Database.DatabaseManager.DeleteCo2Entry | database.py:191-208 | succeeds iff a row matches both id and user, removes exactly that row, and otherwise leaves the table unchanged |
| Database.DatabaseManager.ClearUserCo2Entries | database.py:210-221 | removes exactly the user's rows |
| Database.DatabaseManager.GetUserRewards | database.py:224-253 | returns the stored record, or the default without creating one |
| Database.DatabaseManager.SaveUserRewards | database.py:255-292 | upserts: the user's record becomes the saved fields with missing keys defaulted, and no other record changes |
| Co2Tracker.SharedAmountNonNegative | co2_tracker.py:103-113 | a shared amount with non-negative factors is non-negative |
| Co2Tracker.SharedAmountSplits | co2_tracker.py:109-111 | a split amount times the number of people is the unsplit amount |
| Co2Tracker.TransportBase | co2_tracker.py:59-71 | every transport factor is non-negative |
| Co2Tracker.FuelMultiplier | co2_tracker.py:106 | every fuel efficiency multiplier is non-negative |
| Co2Tracker.TransportNonNegative | co2_tracker.py:103-113 | transport CO₂ is non-negative for a non-negative distance and at least one passenger |
| Co2Tracker.ActiveTravelEmitsNothing | co2_tracker.py:69-70 | cycling and walking emit nothing |
| Co2Tracker.CarTripExample | co2_tracker.py:60-113 | a 10 km gasoline car trip at average efficiency with one passenger gives 2.31 kg |
| Co2Tracker.SharedTripSplits | co2_tracker.py:109-111 | for motorised transport with several passengers, the per-person amount times the passengers is the unshared amount |
| Co2Tracker.FoodBase | co2_tracker.py:165-185 | every food factor is non-negative |
| Co2Tracker.OriginMultiplier | co2_tracker.py:219 | every origin multiplier is non-negative |
| Co2Tracker.PreparationMultiplier | co2_tracker.py:223 | every preparation multiplier is non-negative |
| Co2Tracker.DietNonNegative | co2_tracker.py:212-232 | diet CO₂ is non-negative for a non-negative quantity and waste in 0..50 |
| Co2Tracker.OrganicSavesTenPercent | co2_tracker.py:227-228 | organic food emits 90% of the conventional amount |
| Co2Tracker.WasteInflates | co2_tracker.py:231-232 | waste raises diet CO₂ by a factor between 1 and 1.5 |
| Co2Tracker.DietFormulaBounds | co2_tracker.py:216-232 | for non-negative factors and quantity and a waste share in 0..50, the diet amount is non-negative and lies between the amount without waste and 1.5 times it |
| Co2Tracker.DietFormulaOrganic | co2_tracker.py:227-228 | the organic discount makes the diet amount 0.9 times the conventional one, for any factors |
| Co2Tracker.WasteBetween | co2_tracker.py:231 | the waste factor lies between 1 and 1.5 |
| Co2Tracker.EnergyBase | co2_tracker.py:283-292 | every energy source factor is non-negative |
| Co2Tracker.ApplianceMultiplier | co2_tracker.py:347-352 | every appliance efficiency multiplier is non-negative |
| Co2Tracker.TimeMultiplier | co2_tracker.py:361 | every time-of-use multiplier is non-negative |
| Co2Tracker.RenewableFactorBounds | co2_tracker.py:356-358 | for a mix in 0..100 the renewable factor stays between 0.1 and 1 |
| Co2Tracker.GridAdjustedNonNegative | co2_tracker.py:356-363 | the renewable and time-of-use adjustments keep a non-negative factor non-negative |
| Co2Tracker.ElectricityFormulaNonNegative | co2_tracker.py:343-365 | with non-negative base, appliance and time factors and kWh, the electricity amount is non-negative |
| Co2Tracker.ElectricityNonNegative | co2_tracker.py:343-365 | electricity CO₂ is non-negative for usage ≥ 0 and a mix in 0..100 |
| Co2Tracker.OffGridIgnoresMixAndTime | co2_tracker.py:356-363 | off the grid, neither the renewable mix nor the time of use changes the amount |
| Co2Tracker.ActivityBase | co2_tracker.py:417-432 | every activity factor is non-negative |
| Co2Tracker.SustainabilityMultiplier | co2_tracker.py:465-470 | every sustainability multiplier is non-negative |
| Co2Tracker.OtherNonNegative | co2_tracker.py:461-477 | other-activity CO₂ is non-negative for a quantity ≥ 0 and at least one participant |
| Co2Tracker.UnsharedIgnoresParticipants | co2_tracker.py:474-475 | activities other than cinema, concerts and gym do not depend on the number of participants |
| Co2Tracker.SharedActivitySplits | co2_tracker.py:474-475 | for shared activities, the per-person amount times the participants is the unshared amount |
| Co2Tracker.DetailedEntry | co2_tracker.py:626-650 | the form is accepted iff the stripped description is non-empty and the amount positive; a blank description is rejected as missing; a description with an amount that is not positive is rejected as non-positive; an accepted entry is storable and carries the stripped description, the date, category, amount, participants, notes, the submission time and the "detailed" type, the distance and duration only when positive, the location as typed only when not blank, purpose and efficiency only when chosen, and no quantity, weather or attributes |
| Co2Tracker.HistoryCount | co2_tracker.py:688-696 | each entry occurs in the history as often as among the stored entries that pass the category and date filters |
| Co2Tracker.HistoryViewCorrect | co2_tracker.py:652-696 | the history is newest first, shows only entries of the chosen category (or all) within the date range, and shows each such stored entry exactly as often as stored |
| Dashboard.TrafficMonotone | dashboard.py:60-65 | a larger value never gets a milder colour |
| Dashboard.EntryCountShade | dashboard.py:92 | green iff more than 20 entries, orange iff 6 to 20, dark green iff at most 5 |
| Dashboard.MaxDate | dashboard.py:76 | the latest date of the entries |
| Dashboard.MinDate | dashboard.py:76 | the earliest date of the entries |
| Dashboard.DaysTracked | dashboard.py:76 | at least one day, and more than the gap between any two entry dates |
| Dashboard.DailyAverageBounds | dashboard.py:75-79 | the average is the total over the days tracked, and lies between 0 and the total when amounts are non-negative |
| Dashboard.LexLeReflexive | dashboard.py:102 | string order is reflexive |
| Dashboard.LexLeTotal | dashboard.py:102 | string order is total |
| Dashboard.LexLeTransitive | dashboard.py:102 | string order is transitive |
| Dashboard.Categories | dashboard.py:102 | the category column of the entries, in order |
| Dashboard.MostFrequent | dashboard.py:102 | a value of the list with maximal count, the smallest such in string order |
| Dashboard.TopCategoryIsMode | dashboard.py:101-104 | the top category occurs among the entries, no category occurs more often, and it is the smallest among equally frequent ones |
| Dashboard.Last | dashboard.py:186 | the last n elements, or all when there are fewer |
| Dashboard.RecentActivitiesAreLatest | dashboard.py:186 | shows min(5, n) entries newest first, all taken from the data, and no omitted entry is later than a shown one |
| Dashboard.SplitMultiset | dashboard.py:186 | a list's multiset is that of its two halves |
| Dashboard.EarlierPartNotLater | dashboard.py:186 | in a date-sorted list, the head is no later than the tail |
| Dashboard.DashboardFiguresOfData | dashboard.py:12-48 | with entries present, the total, the count and every daily, category and monthly sum are those of the stored entries |
| Dashboard.ChartsAddUpToTotal | dashboard.py:124-163 | the daily, category and monthly chart values each add up to the total shown |
| Dashboard.SortedGroupTotals | dashboard.py:33 | a group sum of the sorted data equals that group's total in the stored data |
| RewardSystem.CalculateLevel | rewards.py:18-31 | the level is always between 1 and 10 |
| RewardSystem.LevelBands | rewards.py:18-31 | level 1 below 100, 2 from 100, 3 from 300, 4 from 600, 5 for 1000-1999, then one level per 500 points, and 10 from 4000 |
| RewardSystem.LevelMonotone | rewards.py:18-31 | more points never give a lower level |
| RewardSystem.Points | rewards.py:51-95 | every achievement is worth a positive number of points |
| RewardSystem.NewAchievementsExactly | rewards.py:51-95 | an achievement is newly unlocked iff its threshold is met and its id is not held yet, and none is unlocked twice |
| RewardSystem.AppendFresh | rewards.py:51-95 | appending at most one achievement not yet listed keeps the list free of repeats |
| RewardSystem.IdsOf | rewards.py:101-103 | the ids of the new achievements, in order |
| RewardSystem.PointsOfNonNegative | rewards.py:101-103 | the award sum is non-negative, and positive when something is unlocked |
| RewardSystem.AchievementsCheckedProgress | rewards.py:33-107 | with entries, every earned id is held afterwards, the old list is kept as a prefix, points never fall, the level is that of the new points, and nothing else changes |
| RewardSystem.NothingNew | rewards.py:51-95 | when every earned id is held, nothing is unlocked |
| RewardSystem.AchievementsCheckedIdempotent | rewards.py:51-103 | checking again on the result unlocks nothing and leaves points unchanged |
| RewardSystem.UnlockedBy | rewards.py:51-95 | the five rules applied in order unlock exactly the new achievements |
| RewardSystem.AddUnlocked | rewards.py:101-103 | the loop appends exactly the unlocked ids, in order, after the held ones and adds exactly their points |
| RewardSystem.IdsAndPointsStep | rewards.py:101-103 | one more unlocked achievement appends its id and adds its points |
| RewardSystem.AwardAchievements | rewards.py:41-105 | the in-place update: no entries change nothing, otherwise ids are appended, points rise by exactly the award sum and the level is recomputed |
| RewardSystem.CheckAchievements | rewards.py:33-107 | the check on the user's stored entries and rewards |
| RewardSystem.Trunc | rewards.py:137 | `int()` truncates toward zero |
| RewardSystem.WeekKeys | rewards.py:119-125 | the week key of each entry, in order |
| RewardSystem.LatestWeek | rewards.py:128-131 | the latest week key present |
| RewardSystem.LatestTwo | rewards.py:128-131 | no pair when all entries share a week; otherwise the latest and the previous week present, with every other week earlier |
| RewardSystem.WeekKeyInTotals | rewards.py:119-125 | every week key that occurs has a weekly sum |
| RewardSystem.WeeklyImprovement | rewards.py:109-154 | the grouping loop and comparison compute the weekly check |
| RewardSystem.WeekSums | rewards.py:118-125 | the defaultdict loop builds exactly the per-week sums of the entries |
| RewardSystem.WeekSumsStep | rewards.py:121-125 | adding one entry's amount to its week's running sum gives the sums of the longer prefix |
| RewardSystem.CheckWeeklyImprovement | rewards.py:109-154 | the weekly check on the user's stored entries and rewards |
| RewardSystem.WeeklyNeedsTwoWeeks | rewards.py:114-115 | with fewer than 14 entries, or all in one week, nothing changes and no improvement is reported |
| RewardSystem.WeeklyTouchesPointsAndBestWeek | rewards.py:133-146 | the weekly check changes only total points and the best week, never the level |
| RewardSystem.BonusTouchesPointsAndBestWeek | rewards.py:133-146 | the comparison of two week sums changes only total points and the best week, and nothing at all when it reports no improvement |
| RewardSystem.WeekSumNonNegative | rewards.py:119-125 | a weekly sum of non-negative amounts is non-negative |
| RewardSystem.ReductionBounds | rewards.py:134 | a drop from a positive previous week gives a reduction in (0, 100] |
| RewardSystem.BonusBounded | rewards.py:133-146 | a reduction earns 0..200 points, added to the total; the best week becomes the larger reduction and records this week when it wins |
| RewardSystem.BonusRecordsLatest | rewards.py:141-143 | a replaced best week records the latest week |
| RewardSystem.WeeklyCheckIsBonus | rewards.py:127-146 | with 14 entries and two weeks, the check compares the latest week's sum with the previous week's |
| RewardSystem.WeeklyBonusBounded | rewards.py:133-146 | with non-negative amounts, no division by zero occurs, the bonus is in 0..200, the best reduction never falls, and a new best week is the latest week of the data |
| RewardSystem.WeeklyBonusRepeats | rewards.py:133-146 | calling again on the updated record awards the same bonus again |
| RewardSystem.ShowRewardsDashboard | rewards.py:156-173 | the page checks achievements, then runs the weekly check on the reloaded record and saves only that result |
| RewardSystem.ReloadDropsAchievements | rewards.py:161-165 | a new user with 1 to 13 entries unlocks the first entry, but the saved record holds no achievements and the next visit unlocks it again |
| RewardSystem.ShowRewardsDashboardChained | rewards.py:156-173 | the page runs the weekly check on the achievement result and saves that |
| RewardSystem.ChainedKeepsAchievements | rewards.py:161-165 | the saved record holds every earned id, so the next visit unlocks nothing |
| FunRewards.FunPoints | rewards_new.py:10-18 | every achievement is worth a positive number of points |
| FunRewards.ThresholdsIncreasing | rewards_new.py:21-29 | the seven level thresholds start at 0 and strictly increase |
| FunRewards.SearchDown | rewards_new.py:247-252 | the descending scan stops at the highest reached threshold at or below the start index |
| FunRewards.LevelFor | rewards_new.py:247-252 | the level is the largest index whose threshold is reached, in 0..6, and 0 when none is |
| FunRewards.GetCurrentLevel | rewards_new.py:247-252 | the descending loop with early return computes that level |
| FunRewards.LevelUnique | rewards_new.py:247-252 | any index meeting the threshold characterisation is the level |
| FunRewards.LevelBand | rewards_new.py:247-252 | level i iff points lie between threshold i and threshold i+1; 0 below 100; 6 from 2500 |
| FunRewards.LevelForMonotone | rewards_new.py:247-252 | more points never give a lower level |
| FunRewards.LevelCardBounds | rewards_new.py:64-77 | below the top level the points needed are positive, progress is in [0,1), and points plus needed reach the next threshold; at the top level 0 needed and progress 1 |
| FunRewards.ProgressBounds | rewards_new.py:73 | a part of a span over the span lies in [0,1) |
| FunRewards.WeekGrade | rewards_new.py:165-184 | A+ iff below 30, A iff 30 to 60, B iff 60 to 100, C from 100 |
| FunRewards.WeekGradeMonotone | rewards_new.py:165-184 | more emissions never give a better grade |
| FunRewards.WeeklyStatsCount | rewards_new.py:142-184 | the week's count and total together with those of the earlier entries make up all entries and the whole total; no recent entries mean 0 entries, a 0 total and grade A+; all entries recent mean every entry and the whole total; with no negative amounts the week's total lies between 0 and the overall total |
| FunRewards.NonNegativeFiltered | rewards_new.py:161-162 | the entries kept by the date test have no negative total when no amount is negative |
| FunRewards.FunNewAchievementsExactly | rewards_new.py:264-271 | first entry, week tracker and data master unlock iff their count is reached and the id is absent, without repetition |
| FunRewards.FunIdsOf | rewards_new.py:274-284 | the ids of the new achievements, in order |
| FunRewards.FirstVisitFails | rewards_new.py:284 | with entries and no first-entry id, the write calls a method the store lacks |
| FunRewards.CheckNewAchievements | rewards_new.py:254-290 | no entries or nothing new writes nothing; otherwise saves the old ids as a set plus the new ids, with points raised by exactly their sum and other fields kept |
| FunRewards.FunUnlockedBy | rewards_new.py:264-271 | the three rules applied in order unlock exactly the new achievements |
| FunRewards.DistinctConcat | rewards_new.py:275 | joining two duplicate-free lists with no common element is duplicate-free |
| FunRewards.FunIdsDistinct | rewards_new.py:275 | distinct achievements have distinct ids |
| FunRewards.FunIdInjective | rewards_new.py:10-18 | no two achievements share an id |
| FunRewards.MergedIds | rewards_new.py:275 | the merged list holds each old and each new id exactly once, with the new ids last |
| FunRewards.DistinctList | rewards_new.py:275 | `list(set)` lists each element exactly once |
| Auth.SignupDecision | auth.py:20-41 | sign-up succeeds iff the name is free, its stripped form has at least 3 characters, the password at least 6, and the stripped name is free; the guards fire in that order |
| Auth.SignupUser | auth.py:20-41 | the guards, then the store write of the stripped name with the new hash; a refusal changes nothing |
| Auth.CreateFailsOnlyForPaddedNames | auth.py:35-41 | the store refuses only a padded name whose stripped form is taken |
| Auth.SignupOnce | auth.py:23-25 | a stored name cannot sign up again |
| Auth.PaddedNameNotStored | auth.py:35-41 | a padded name is stored stripped, so the name as typed is not a user |
| Auth.LoginUser | auth.py:13-18 | login succeeds iff the user exists and the password verifies against the stored hash |

## Left out

- The web pages: all rendering, forms, tabs, balloons and progress bars, and all session state, including the navigation and logout in `app.py`. The form inputs become parameters.
- The charts: only the grouped data that feeds them is modelled.
- The SQL engine, sessions and table creation. The tables are in-memory collections, and rows are listed in insertion order where the database returns them in its own order. A database exception is not modelled: only the failure of a missing required field (`Storable`) and of a taken name are.
- `get_all_users`: it is not used by the modelled pages.
- Password hashing: the new hash is an argument of sign-up, and checking a password is an uninterpreted `verify` function.
- Co2Tracker.DetailedEntry: keeps the amount as entered; the `round(co2_amount, 2)` at co2_tracker.py:637 is not modelled, because amounts are exact reals here.
- Floating point: amounts are exact reals. Rounding to two decimals on save and float summation error are not modelled. `Co2Tracker.CarTripExample` states the exact real 2.31.
- Calendar arithmetic: `%Y-%W` week keys and `to_period('M')` month keys are given as functions from days. Dates are day numbers.
- The clock and randomness: the current time and the week cut-off are parameters, and the random tip is not modelled.
- The quick-entry block of the tracker page (`co2_tracker.py:522-585`): it uses a name that is never defined and cannot run.
- The store wrappers `load_user_data`, `clear_user_data` and `add_emission_entry` (`co2_tracker.py:9-24`): each is one direct store call, modelled by the store method itself. `save_user_data` does nothing.
- The `"Grid" in name` test is modelled as "the source is grid electricity", the only source whose name contains it.
- The appliance suggestions only pre-fill the usage field and are not modelled.
- Sort ties: the date sort is stable. pandas' default sort is not guaranteed stable, so with equal dates the order of the shown entries may differ.
- The second rewards page's sequence (`rewards_new.py:31-62`): its guard for a missing record is never taken, because reading rewards always returns a record. Only its level card, weekly stats and achievement check are modelled.
- The achievement grid (`rewards_new.py:98-140`): display only.
- Streaks, badges, monthly goals and the last entry date are stored and defaulted but never computed by these files.

## Findings

| source | as written | input that shows it | evidently intended | confidence | as-written member | corrected member |
|---|---|---|---|---|---|---|
| rewards.py:161-165 | the weekly check reloads the stored rewards, so the achievements and points computed just before are not what is saved | a user with no rewards record and 1 to 13 entries: the first entry is announced, but the saved record has no achievements and the next visit announces it again | the weekly check runs on the achievement result, and that is saved | not executed | RewardSystem.ReloadDropsAchievements | RewardSystem.ChainedKeepsAchievements |
| rewards_new.py:284 | the new achievements are written through `update_user_rewards`, which the store does not define | a user with at least one entry whose record lacks `first_entry`: the write fails with an attribute error | an update that merges into the stored record: the points and the ids are added and every other field of the record is kept, which is what the name `update_user_rewards` suggests. Passing the two-key `updated_rewards` of rewards_new.py:279-282 unchanged to `save_user_rewards` would instead reset the level to 1, the best week to `{}` and clear the badges, streak and goals (database.py:262-269) | not executed | FunRewards.FirstVisitFails | FunRewards.CheckNewAchievements |
