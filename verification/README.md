# cpps-gateway in Dafny

A model of the scheduling and bookkeeping core of the cpps-gateway system.
In this system, production tasks for a small factory are auctioned among
resource agents: workstations, employees and picking (storage) nodes.
Radio-connected storage nodes called phynodes are managed through a gateway.

The model covers:

- **Resource calendars** (`workstation.dfy`, `employee.dfy`, `slot_scan.dfy`):
  - Each agent keeps a doubly linked list of time slots. Here it is the
    sequence of entries that a walk from head to tail visits.
  - `append` scans for the place where a new slot fits, skips entries of the
    slot's own production cycle, and pushes the slot past conflicting entries
    of other cycles. The workstation leaves a `rotating_time` gap after each
    slot; the employee moves its two start times together.
  - `SlotScan` holds the shared scan. Which earlier entry a shift is measured
    from is a parameter: the rule each source file uses as written, or the
    intended rule (the nearest earlier entry of another cycle). The calendars
    use the intended rule (see Findings).
- **Resource-pool gateways** (`workstation_gateway.dfy`, `employee_gateway.dfy`,
  `picking_gateway.dfy`, `selection.dfy`):
  - The pools of agents; the auction round that reserves a tentative slot on
    every skilled employee and keeps the cheapest; the valuation that
    harmonises a workstation offer with the picking and employee offers; the
    reject-then-book step.
  - The picking task list, the unblock rule and the lowest-energy choice.
  - `Selection.FirstMinOf` is the shared "first minimum wins" rule.
- **Task orchestrator** (`task_manager.dfy`, `task_record.dfy`):
  - The sliding windows of reference values and their averages; the pick of
    the next task; the list of blocked containers (KLTs).
  - The task agent's choice of the best offer by review result, its walk
    through the priority graph, the precondition test, the reject list and
    the deadline rule.
  - The task record and its dictionary form.
- **Radio gateway** (`radio_packets.dfy`, `radio_protocol.dfy`, `radio_lines.dfy`,
  `dhcp.dfy`, `phynode_table.dfy`, `radio_stats.dfy`):
  - CC1200 and access-point packet framing, and its inverse on the receive side.
  - The text command encoder with its 8-bit sequence number, and the per-sequence-number reply log.
  - The line parser and the serial line buffer.
  - DHCP-style address assignment, the phynode status table (Preserver) and the runtime packet counters.
- **Smaller cores**:
  - The order bookkeeping of `SFB876.py` (`order_processing.dfy`).
  - The order records of `models.py` (`order_models.dfy`).
  - The fixed byte FIFO of the radio driver (`byte_queue.dfy`, an `array` of 128 bytes).
  - The LPD8806 LED pixel buffer (`pixel_strip.dfy`).
- **Shared helpers**:
  - `wrappers.dfy`: Option and Result.
  - `json.dfy`: the dictionary values.
  - `pyint.dfy`: Python's `int()` and `str()` on decimal text.
  - `text_split.dfy`: Python's `split`/`join`, with their round trip proved.

Objects whose fields the source updates in place are classes with `modifies`
clauses: calendars, gateways, the task manager and agent, the parser, the
DHCP server, the phynode table, the statistics, the queue and the LED strip.
Their methods are proved against specification functions, through loop
invariants where the source loops. Pure conversions are functions.

Several behaviours are modelled as written and stated as such, although
they may surprise a reader:

- `delete_employee` and `delete_workstation` return from their loop on its
  first pass, so only the head of the list is compared.
- `is_blocked` looks only at the first phynode.
- `Order.from_dict(o.to_dict())` wraps the articles and stages one list deeper.
- With ten articles, an order's last intern order number equals the next
  order's empty-cart number.
- The second harmonisation test compares a time difference against a
  timestamp, not a buffer.
- The `stage_2` reject pruning keeps a copy right behind a removed one.

## Model

| member | source | states |
|---|---|---|
| SlotScan.Later | CPPS/cpps_workstation/cpps_workstation.py:155-176 | the later of two times is one of them and no earlier than either |
| SlotScan.LastOther | CPPS/cpps_workstation/cpps_workstation.py:130-152 | the nearest index before k whose cycle differs, with only entries of that cycle in between; None exactly when all earlier entries share the cycle |
| SlotScan.Pred | CPPS/cpps_workstation/cpps_workstation.py:145-152 | the predecessor `prev_iterator` the scan uses lies before the iterator or at the start of the run being skipped, under each of the three predecessor rules |
| SlotScan.ScanFrom | CPPS/cpps_workstation/cpps_workstation.py:130-255 | the scan from index i on never inserts before i and never moves the new entry earlier |
| SlotScan.Fit | CPPS/cpps_workstation/cpps_workstation.py:142-179 | the new entry fits in front of an entry of another cycle only when that entry begins after the new slot's end plus gap; it then begins at the later of its request and the predecessor's end, and a moved entry still ends the required room before the next one |
| SlotScan.ScanSkip | CPPS/cpps_workstation/cpps_workstation.py:131-140 | an entry of the new entry's own cycle is skipped and the run start is remembered |
| SlotScan.ScanOther | CPPS/cpps_workstation/cpps_workstation.py:141-182 | at an entry of another cycle the scan either places the new entry in front of it or continues with no run |
| SlotScan.Place | CPPS/cpps_workstation/cpps_workstation.py:84-255 | `append`'s decision: an insertion index within the calendar and a begin time no earlier than asked |
| SlotScan.PredIsLastOther | CPPS/cpps_workstation/cpps_workstation.py:145-152 | under the intended predecessor rule the scan's predecessor is the nearest entry of another cycle |
| SlotScan.ScanClearOfPredecessor | CPPS/cpps_workstation/cpps_workstation.py:130-255 | from any index, the intended scan begins the new entry at the later of its request and the end plus gap of the nearest earlier entry of another cycle |
| SlotScan.TailClearOfPredecessor | CPPS/cpps_workstation/cpps_workstation.py:183-255 | the same at the last entry, after the while loop |
| SlotScan.PlaceClearOfPredecessor | CPPS/cpps_workstation/cpps_workstation.py:84-255 | with the intended rule the new entry begins at the later of its request and the end plus gap of the nearest earlier entry of another cycle, unmoved when there is none |
| SlotScan.ScanShiftSource | CPPS/cpps_workstation/cpps_workstation.py:130-255 | under every rule, each move sets the begin to the end plus gap of an entry before the insertion point |
| SlotScan.TailShiftSource | CPPS/cpps_workstation/cpps_workstation.py:183-255 | the same at the last entry |
| SlotScan.ScanBeforeSuccessor | CPPS/cpps_workstation/cpps_workstation.py:130-255 | an entry the new one is linked in front of is of another cycle and begins after the new slot ends, and after its end plus gap when it was not moved |
| SlotScan.TailBeforeSuccessor | CPPS/cpps_workstation/cpps_workstation.py:205-244 | the same at the last entry |
| SlotScan.PlaceBeforeSuccessor | CPPS/cpps_workstation/cpps_workstation.py:84-255 | for the whole of `append`: the entry after the inserted one is of another cycle and begins after the new slot ends |
| SlotScan.PlaceShiftSource | CPPS/cpps_workstation/cpps_workstation.py:84-255 | for the whole of `append`: each move sets the begin to the end plus gap of an entry before the insertion point |
| SlotScan.PlaceSingle | CPPS/cpps_workstation/cpps_workstation.py:100-128 | a calendar of one entry: after it for the same cycle, in front of it when it begins after the new slot, else after it, moved past its end plus gap |
| SlotScan.WorkstationHeadRunOverlap | CPPS/cpps_workstation/cpps_workstation.py:145-152 | as written, a run starting just after the head is taken for one at the head: the new slot keeps begin 5.0 although the head occupies the calendar up to 15.0; the intended rule moves it to 15.0 |
| SlotScan.EmployeeOwnCycleShift | CPPS/cpps_employee/cpps_employee.py:191-197 | as written, the employee calendar keeps a copy of the head, so a run at the head makes the head (of the new entry's own cycle) the predecessor: a slot asked for 10.0 is moved to 50.0, where the intended rule leaves it at 10.0 |
| CppsEmployee.ToDictRoundTrip | CPPS/cpps_employee/cpps_employee.py:86-108 | an entry's dictionary holds every field, so it reads back to the same entry; the start is published under `availability_time` and not under `start_time` |
| CppsEmployee.Shifted | CPPS/cpps_employee/cpps_employee.py:229-235 | a shift sets the employee start to the new time and moves the availability by the same amount: the running time between them is kept and nothing else changes |
| CppsEmployee.Placed | CPPS/cpps_employee/cpps_employee.py:141-320 | the entry `append` stores keeps the task, labor process, target, slot length and skill time of the entry asked for, and can only move later, employee start and availability by the same amount |
| CppsEmployee.AppendedStart | CPPS/cpps_employee/cpps_employee.py:141-320 | after `append` the calendar is the old one with the placed entry linked in at one index and the other entries untouched; the placed entry's employee start is the later of the requested one and the end of the nearest earlier entry of another cycle, and it is unmoved when there is no such entry |
| CppsEmployee.AppendedBeforeSuccessor | CPPS/cpps_employee/cpps_employee.py:199-240 | when the new entry goes in front of an existing entry, that entry is of another cycle and begins strictly after the new slot ends |
| CppsEmployee.AppendedShiftSource | CPPS/cpps_employee/cpps_employee.py:141-320 | the new entry is either stored as asked or moved to the end of an entry before its insertion point |
| CppsEmployee.FirstMatch | CPPS/cpps_employee/cpps_employee.py:322-362 | the index of the first entry of that task, labor process and target, None exactly when no entry matches |
| CppsEmployee.RemoveFirstRemovesOne | CPPS/cpps_employee/cpps_employee.py:322-362 | `delete` removes exactly the first matching entry (nothing when none matches) and keeps the others in order |
| CppsEmployee.Rebooked | CPPS/cpps_employee/cpps_employee.py:364-407 | a rebooked entry gets the new start and the new length plus the running time; its employee start moves with the start, keeping their distance |
| CppsEmployee.ScanForSlot | CPPS/cpps_employee/cpps_employee.py:187-245 | the while loop of `append` over a calendar of two or more entries returns the insertion index and the entry of the placement specification |
| CppsEmployee.TailSlot | CPPS/cpps_employee/cpps_employee.py:245-320 | the part of `append` after the loop, at the tail, agrees with the placement specification at the last index |
| CppsEmployee.Calendar.constructor | CPPS/cpps_employee/cpps_employee.py:136-139 | a new calendar is empty |
| CppsEmployee.Calendar.Append | CPPS/cpps_employee/cpps_employee.py:141-320 | the calendar becomes the old one with the entry placed as specified, the stored entry is returned, and an empty calendar receives the entry unchanged |
| CppsEmployee.Calendar.Delete | CPPS/cpps_employee/cpps_employee.py:322-362 | the first matching entry is unlinked; the count is 1 exactly when some entry matched and equals the number of entries removed |
| CppsEmployee.Calendar.Update | CPPS/cpps_employee/cpps_employee.py:364-407 | the first matching entry is rebooked and the new start returned; 0.0 and no change when none matches |
| CppsEmployee.Calendar.ToDictList | CPPS/cpps_employee/cpps_employee.py:409-418 | one dictionary per entry, head first |
| CppsEmployee.Employee.constructor | CPPS/cpps_employee/cpps_employee.py:432-452 | a new employee keeps its attributes, is not blocked, has no cookie and an empty calendar |
| CppsEmployee.Employee.Asked | CPPS/cpps_employee/cpps_employee.py:555-610 | the entry a reservation asks for starts the running time before the desired availability |
| CppsEmployee.Employee.HasSkill | CPPS/cpps_employee/cpps_employee.py:477-481 | true exactly when the skill list contains the labor process |
| CppsEmployee.Employee.Block | CPPS/cpps_employee/cpps_employee.py:520-523 | the employee is blocked under the cookie and true is returned |
| CppsEmployee.Employee.Unblock | CPPS/cpps_employee/cpps_employee.py:525-529 | the employee is always unblocked; the cookie is forgotten only when it is the one given |
| CppsEmployee.Employee.Reservation | CPPS/cpps_employee/cpps_employee.py:531-694 | the calendar receives the asked entry as `append` places it, and the offer is the stored entry with the valuation, id, buffer and costs of the offer specification |
| CppsEmployee.Employee.Reject | CPPS/cpps_employee/cpps_employee.py:696-706 | the first calendar entry of that task, labor process and target is deleted and the count returned |
| CppsEmployee.Employee.Book | CPPS/cpps_employee/cpps_employee.py:708-723 | the first matching calendar entry is rebooked with the employee's running time; the new start is returned, 0.0 when none matches |
| CppsEmployee.OfferValuation | CPPS/cpps_employee/cpps_employee.py:641-694 | the availability moves exactly as far as the employee start and never earlier; the valuation is the sentinel 999 when the move (0.01 when none) exceeds the workstation's buffer, and otherwise the weighted sum of the normalised move and costs |
| CppsEmployeeGateway.Valuations | CPPS/cpps_employee/cpps_employee_gateway.py:303-311 | the valuations the best-so-far loop compares, one per offer and in order |
| CppsEmployeeGateway.BestOf | CPPS/cpps_employee/cpps_employee_gateway.py:303-311 | the chosen offer is None (the empty dict) exactly when there are no offers; otherwise it is one of them and no offer has a smaller valuation |
| CppsEmployeeGateway.OffersOfSkilled | CPPS/cpps_employee/cpps_employee_gateway.py:288-301 | every offer is the reservation of an employee with the skill, there are at most as many offers as employees, and there is none exactly when no employee has the skill |
| CppsEmployeeGateway.AfterOfferOf | CPPS/cpps_employee/cpps_employee_gateway.py:284-338 | the reservation loop followed by the rejection loop leaves each calendar as the after-offer specification says: a skilled employee keeps its new slot only when it won or its id is empty |
| CppsEmployeeGateway.AfterRejectsOnlyTask | CPPS/cpps_employee/cpps_employee_gateway.py:139-150 | the rejects of `book_employee` remove at most one entry per reject and only entries of the task being booked; all other entries survive |
| CppsEmployeeGateway.OffersOfComplete | CPPS/cpps_employee/cpps_employee_gateway.py:288-301 | every skilled employee's offer is among the offers |
| CppsEmployeeGateway.OffersOfDistinct | CPPS/cpps_employee/cpps_employee_gateway.py:288-301 | with unique employee ids no two offers carry the same id |
| CppsEmployeeGateway.OffersOfIds | CPPS/cpps_employee/cpps_employee_gateway.py:288-301 | with unique ids, an employee's id is among the offers exactly when it has the skill, each offer's id finds an employee, and the offer ids are distinct |
| CppsEmployeeGateway.IndexOf | CPPS/cpps_employee/cpps_employee_gateway.py:185-190 | the first employee with that id, None exactly when there is none |
| CppsEmployeeGateway.CalendarIndex | CPPS/cpps_employee/cpps_employee_gateway.py:288-301 | the first employee holding a calendar, or the length of the list when none does |
| CppsEmployeeGateway.OwnCalendars | CPPS/cpps_employee/cpps_employee_gateway.py:288-301 | when no two employees share a calendar, each employee is the first holder of its own, so a reservation on one leaves the others' calendars alone |
| CppsEmployeeGateway.EmployeeGateway.constructor | CPPS/cpps_employee/cpps_employee_gateway.py:74-77 | a new gateway has no employees |
| CppsEmployeeGateway.EmployeeGateway.GetEmployee | CPPS/cpps_employee/cpps_employee_gateway.py:185-190 | the first employee with that id, or a fresh employee with the empty id, no skills and an empty calendar |
| CppsEmployeeGateway.EmployeeGateway.AddEmployee | CPPS/cpps_employee/cpps_employee_gateway.py:192-207 | true exactly when the id is not taken, in which case a new employee with the given attributes and an empty calendar is appended; otherwise the list is unchanged; ids stay unique |
| CppsEmployeeGateway.EmployeeGateway.DeleteEmployee | CPPS/cpps_employee/cpps_employee_gateway.py:209-215 | as written, only the head of the list is compared: it is removed with true when it has the id, false otherwise, and nothing is returned for an empty list |
| CppsEmployeeGateway.EmployeeGateway.GetOffer | CPPS/cpps_employee/cpps_employee_gateway.py:253-338 | the result is the first offer with the smallest valuation among the skilled employees' reservations (None when there are none), and every calendar ends as the after-offer specification says |
| CppsEmployeeGateway.EmployeeGateway.RejectLosers | CPPS/cpps_employee/cpps_employee_gateway.py:317-331 | an employee that made an offer, is not the winner and has a non-empty id loses its first slot of the task; every other calendar is unchanged |
| CppsEmployeeGateway.EmployeeGateway.RejectOne | CPPS/cpps_employee/cpps_employee_gateway.py:319-326 | one candidate, unless it is the winner or has the empty id, loses its first slot of the task; no other calendar changes |
| CppsEmployeeGateway.EmployeeGateway.BookEmployee | CPPS/cpps_employee/cpps_employee_gateway.py:128-176 | every employee applies the rejects for the labor processes it has; then the named employee's slot is rebooked and its new start returned, 0.0 when the employee or its slot is unknown |
| CppsEmployeeGateway.RejectAll | CPPS/cpps_employee/cpps_employee_gateway.py:140-150 | one employee applies the rejects in order, each only for a labor process it has |
| CppsEmployeeGateway.ReserveAll | CPPS/cpps_employee/cpps_employee_gateway.py:288-301 | the offers are the skilled employees' reservations in list order, and each skilled employee's calendar receives its tentative slot while the others are unchanged |
| CppsEmployeeGateway.ReserveNext | CPPS/cpps_employee/cpps_employee_gateway.py:288-301 | one turn of the reservation loop extends the offers by the employee's and changes only that employee's calendar |
| CppsEmployeeGateway.ReserveOne | CPPS/cpps_employee/cpps_employee_gateway.py:289-301 | an employee with the skill reserves a slot and returns its offer; one without it returns nothing and keeps its calendar |
| CppsEmployeeGateway.ChooseBest | CPPS/cpps_employee/cpps_employee_gateway.py:303-311 | the best-so-far loop ends with the first offer of smallest valuation |
| CppsWorkstation.ToDictRoundTrip | CPPS/cpps_workstation/cpps_workstation.py:26-41 | an entry's dictionary has exactly the five keys the agents exchange and reads back to the same entry |
| CppsWorkstation.Placed | CPPS/cpps_workstation/cpps_workstation.py:84-255 | the entry `append` stores is the one asked for, only possibly moved to a later start |
| CppsWorkstation.AppendedStart | CPPS/cpps_workstation/cpps_workstation.py:84-255 | after `append` the calendar is the old one with the placed entry linked in at one index and the others untouched; its start is the later of the requested start and the end plus rotating time of the nearest earlier entry of another cycle, unmoved when there is none |
| CppsWorkstation.AppendedBeforeSuccessor | CPPS/cpps_workstation/cpps_workstation.py:142-179 | an entry the new one goes in front of is of another cycle and begins after the new slot ends, and after its end plus rotating time when the new entry was not moved |
| CppsWorkstation.AppendedShiftSource | CPPS/cpps_workstation/cpps_workstation.py:84-255 | the new entry keeps its start or is moved to the end plus rotating time of an entry before its insertion point |
| CppsWorkstation.WithoutKeepsOthers | CPPS/cpps_workstation/cpps_workstation.py:256-308 | `delete` keeps exactly the entries that do not match, and the entries kept plus the count reported make up the old calendar |
| CppsWorkstation.FirstMatch | CPPS/cpps_workstation/cpps_workstation.py:310-339 | the index of the first entry of that task and labor process, None exactly when none matches |
| CppsWorkstation.FirstSkill | CPPS/cpps_workstation/cpps_workstation.py:440-444 | the index of the first skill with that name, None exactly when there is none |
| CppsWorkstation.Rebooked | CPPS/cpps_workstation/cpps_workstation.py:310-339 | `update` gives the first matching entry the new start and slot length and changes nothing else; no change when none matches |
| CppsWorkstation.ScanForSlot | CPPS/cpps_workstation/cpps_workstation.py:129-183 | the while loop of `append` over a calendar of two or more entries returns the insertion index and the entry of the placement specification |
| CppsWorkstation.TailSlot | CPPS/cpps_workstation/cpps_workstation.py:184-255 | the part of `append` after the loop agrees with the placement specification at the last index |
| CppsWorkstation.Calendar.constructor | CPPS/cpps_workstation/cpps_workstation.py:79-82 | a new calendar is empty |
| CppsWorkstation.Calendar.Append | CPPS/cpps_workstation/cpps_workstation.py:84-255 | the calendar becomes the old one with the entry placed as specified, the stored entry is returned, and an empty calendar receives the entry unchanged |
| CppsWorkstation.Calendar.Delete | CPPS/cpps_workstation/cpps_workstation.py:256-308 | every entry of that task and labor process is unlinked, the others stay in order, and the count is the number removed |
| CppsWorkstation.Calendar.Update | CPPS/cpps_workstation/cpps_workstation.py:310-339 | the first matching entry gets the new start and length and is returned; None and no change when none matches |
| CppsWorkstation.Calendar.GetEntry | CPPS/cpps_workstation/cpps_workstation.py:341-360 | the first entry of that task and labor process; None exactly when none matches |
| CppsWorkstation.Calendar.ToDictList | CPPS/cpps_workstation/cpps_workstation.py:362-371 | one dictionary per entry, head first |
| CppsWorkstation.Workstation.constructor | CPPS/cpps_workstation/cpps_workstation.py:385-400 | a new workstation keeps its attributes, starts blocked and has an empty calendar |
| CppsWorkstation.Workstation.HasSkill | CPPS/cpps_workstation/cpps_workstation.py:434-438 | true exactly when some skill has that name |
| CppsWorkstation.Workstation.GetSkillTime | CPPS/cpps_workstation/cpps_workstation.py:440-444 | the time of the first skill with that name, 0.0 when there is none |
| CppsWorkstation.Workstation.ReservedOn | CPPS/cpps_workstation/cpps_workstation.py:483-524 | the reserved slot is the skill time plus a buffer of delta times the skill time long, starts no earlier than desired, carries the ids asked for and is the entry the calendar holds after `append`; the costs are the costs per second times the skill time |
| CppsWorkstation.Workstation.Reservation | CPPS/cpps_workstation/cpps_workstation.py:483-524 | the calendar receives the asked entry as `append` places it with rotating time 5, and the reservation figures are returned |
| CppsWorkstation.Workstation.Reject | CPPS/cpps_workstation/cpps_workstation.py:526-535 | every calendar entry of that task and labor process is deleted and counted |
| CppsWorkstation.Workstation.Book | CPPS/cpps_workstation/cpps_workstation.py:537-549 | the first matching entry gets the given start and the bare skill time of its labor process as its length, and is returned; None when none matches |
| CppsWorkstationGateway.DesiredStart | CPPS/cpps_workstation/cpps_workstation_gateway.py:473-480 | closer than half a metre the robot leaves five seconds after the previous completion; otherwise the wait times the average velocity is twice the distance (way there and back), so with a positive velocity the start lies after the completion; at half a metre or more with a zero velocity the infinite departure makes the date conversion raise OverflowError |
| CppsWorkstationGateway.SyncStart | CPPS/cpps_workstation/cpps_workstation_gateway.py:757-766 | the synchronised start is the later of the picking start and the employee availability, and the picking start on a tie |
| CppsWorkstationGateway.EarlierStart | CPPS/cpps_workstation/cpps_workstation_gateway.py:757-766 | the availability of the resource ready first is the earlier of the two, and with the synchronised start it makes up both |
| CppsWorkstationGateway.FiguresOf | CPPS/cpps_workstation/cpps_workstation_gateway.py:783-816 | the start is the synchronised start, the completion is start plus skill time, the throughput is measured from the previous completion and normalised as exp(-10/t), and the total costs are the four cost figures added up and normalised; a zero throughput time or zero total costs raise ZeroDivisionError, and exactly those |
| CppsWorkstationGateway.CalculateValuationResult | CPPS/cpps_workstation/cpps_workstation_gateway.py:719-848 | without the picking or the employee reply the offer comes back unchanged and valued 999; with both but one of them the empty dictionary, KeyError; with two offers, the division errors of the figures, or the figures and the weighted sum of normalised throughput and costs, or 999 when the offers do not harmonise |
| CppsWorkstationGateway.ValuedOnlyWithinBuffer | CPPS/cpps_workstation/cpps_workstation_gateway.py:767-770 | a valuation other than 999 implies both offers were there and the synchronised start lies within the workstation's buffer around its desired availability date |
| CppsWorkstationGateway.SecondCheckAsWritten | CPPS/cpps_workstation/cpps_workstation_gateway.py:775-778 | as written, the second test compares the earlier resource's wait with its own availability timestamp; it fails exactly when the synchronised start exceeds twice that timestamp, so for clock times harmonisation rests on the buffer test alone |
| CppsWorkstationGateway.ReserveWorkstation | CPPS/cpps_workstation/cpps_workstation_gateway.py:388-520 | the robot is looked up at the last workstation if there was one, else by its own id; without the workstation's position the result is the empty dict; with only the workstation's position the distance raises ValueError; with both, a zero velocity raises as in DesiredStart, otherwise the departure and transport costs are computed, the workstation reserves its slot from the departure on, and the offer carries the completion time and the workstation's ids; no slot is reserved on any path but the last |
| CppsWorkstationGateway.AfterRejectsKeepsOthers | CPPS/cpps_workstation/cpps_workstation_gateway.py:541-551 | after the rejects a workstation keeps exactly the entries that no reject addressed to it matches |
| CppsWorkstationGateway.IndexOf | CPPS/cpps_workstation/cpps_workstation_gateway.py:177-181 | the first workstation with that id, None exactly when there is none |
| CppsWorkstationGateway.WorkstationGateway.constructor | CPPS/cpps_workstation/cpps_workstation_gateway.py:67-74 | a new gateway has no workstations |
| CppsWorkstationGateway.WorkstationGateway.GetWorkstation | CPPS/cpps_workstation/cpps_workstation_gateway.py:177-181 | the first workstation with that id, or a fresh empty `Workstation()` |
| CppsWorkstationGateway.WorkstationGateway.AddWorkstation | CPPS/cpps_workstation/cpps_workstation_gateway.py:139-159 | true exactly when the id is not taken, in which case a new workstation with the given attributes and an empty calendar is appended; otherwise nothing changes; ids stay unique |
| CppsWorkstationGateway.WorkstationGateway.DeleteWorkstation | CPPS/cpps_workstation/cpps_workstation_gateway.py:168-175 | as written, only the head of the list is compared: removed with true when it has the id, false otherwise, nothing returned for an empty list |
| CppsWorkstationGateway.WorkstationGateway.BookWorkstation | CPPS/cpps_workstation/cpps_workstation_gateway.py:522-585 | every workstation deletes its slots of the task for each reject naming it; then the named workstation, if it has the skill, books its first slot of the task with the bare skill time; the booked start is returned, 0.0 when the slot is missing, and None (the source's `False`) when the workstation is unknown or lacks the skill |
| CppsWorkstationGateway.RejectAll | CPPS/cpps_workstation/cpps_workstation_gateway.py:545-551 | one workstation applies, in order, every reject that names it |
| CppsPickingGateway.NewPickingTask | CPPS/cpps_picking/cpps_picking_gateway.py:121-176 | a new record holds the task, no offer from the fleet management system, and every flag cleared |
| CppsPickingGateway.FirstUnbooked | CPPS/cpps_picking/cpps_picking_gateway.py:299-314 | the first task of that cycle that is not booked, None exactly when there is none |
| CppsPickingGateway.FirstMatch | CPPS/cpps_picking/cpps_picking_gateway.py:196-218 | the first task of that task id, labor process and workstation, None exactly when none matches |
| CppsPickingGateway.Booked | CPPS/cpps_picking/cpps_picking_gateway.py:207-218 | exactly the first matching task is marked booked with the start time as its desired availability date; every other task is unchanged, and nothing changes when none matches |
| CppsPickingGateway.RemoveFirstRemovesOne | CPPS/cpps_picking/cpps_picking_gateway.py:196-206 | a reject removes exactly the first matching task (none when nothing matches) and keeps the rest in order |
| CppsPickingGateway.AfterRejectsRemovesAtMost | CPPS/cpps_picking/cpps_picking_gateway.py:195-206 | the rejects remove at most one task each and keep only tasks that were there |
| CppsPickingGateway.Unblocked | CPPS/cpps_picking/cpps_picking_gateway.py:109-117 | a task is either left as it is or, when it has an offer, is not yet restored and the clock has passed start + 7.5 + (start - estimated pickup), marked restored, after which it is never restored again |
| CppsPickingGateway.RestoredOnce | CPPS/cpps_picking/cpps_picking_gateway.py:109-117 | once restored, no later clock reading restores a task again and a second pass leaves it unchanged |
| CppsPickingGateway.Energies | CPPS/cpps_picking/cpps_picking_gateway.py:419-427 | the walk sees the energy of each item carrying the ordernumber and skips every other item |
| CppsPickingGateway.PickingGateway.constructor | CPPS/cpps_picking/cpps_picking_gateway.py:71-80 | a new gateway has no picking tasks |
| CppsPickingGateway.PickingGateway.AddNewPickingTask | CPPS/cpps_picking/cpps_picking_gateway.py:121-176 | the new record is appended to the list and returned |
| CppsPickingGateway.PickingGateway.FindPhyaddrForTask | CPPS/cpps_picking/cpps_picking_gateway.py:299-314 | the container address of the first unbooked task of the cycle, None when there is none |
| CppsPickingGateway.PickingGateway.BookPickingTask | CPPS/cpps_picking/cpps_picking_gateway.py:178-256 | with no picking task a failure and no change; otherwise each reject removes its first matching task, the first task matching the booking is booked, and the fleet management system's reply is passed on, a failure when there is none |
| CppsPickingGateway.PickingGateway.RemoveMatch | CPPS/cpps_picking/cpps_picking_gateway.py:197-206 | one reject removes the first matching task, if there is one |
| CppsPickingGateway.PickingGateway.BookMatch | CPPS/cpps_picking/cpps_picking_gateway.py:207-218 | the booking loop marks the first matching task booked for the start time |
| CppsPickingGateway.PickingGateway.CheckForUnblock | CPPS/cpps_picking/cpps_picking_gateway.py:103-119 | one pass of the unblock thread applies the unblock rule to every task, keeps the list's length, and returns the addresses of the containers it restores, in list order |
| CppsPickingGateway.LowestEnergy | CPPS/cpps_picking/cpps_picking_gateway.py:419-427 | None exactly when no item carries the ordernumber; otherwise the first candidate of lowest energy, one of the items |
| CppsTaskManager.Filled | CPPS/cpps_task/cpps_task_manager.py:128-133 | the window holds exactly `param` values, each the configured initial value |
| CppsTaskManager.SumFilled | CPPS/cpps_task/cpps_task_manager.py:128-133 | a window of `param` copies of v sums to `param` · v |
| CppsTaskManager.AverageOfFilled | CPPS/cpps_task/cpps_task_manager.py:296-302 | a freshly filled non-empty window averages to its initial value, so the first reviews and the first remaining-time estimate use the configured values |
| CppsTaskManager.InitialWindows | CPPS/cpps_task/cpps_task_manager.py:124-146 | the window map has exactly the configured operations, each with `param` copies of its initial value |
| CppsTaskManager.InitialAverages | CPPS/cpps_task/cpps_task_manager.py:124-146 | with `param` > 0 every operation of a fresh window map averages to its configured value |
| CppsTaskManager.Slid | CPPS/cpps_task/cpps_task_manager.py:348-360 | sliding keeps the window's length, drops exactly the oldest value and makes the new one the newest |
| CppsTaskManager.AverageAfterSlide | CPPS/cpps_task/cpps_task_manager.py:348-360 | sliding moves the mean by (newest − oldest) / length |
| CppsTaskManager.SpentAppend | CPPS/cpps_task/cpps_task_manager.py:307-314 | what is subtracted splits over concatenated lists of finished operations |
| CppsTaskManager.SpentSwap | CPPS/cpps_task/cpps_task_manager.py:307-314 | swapping two finished operations does not change the remaining time, so it depends on which operations are finished and not on their order |
| CppsTaskManager.Index | CPPS/cpps_task/cpps_task_manager.py:284-286 | the position of the first occurrence of a value in the list |
| CppsTaskManager.RemovedOnce | CPPS/cpps_task/cpps_task_manager.py:284-286 | `list.remove`: one element shorter, with exactly the first occurrence cut out, when the value is there; unchanged otherwise |
| CppsTaskManager.DistinctRemoved | CPPS/cpps_task/cpps_task_manager.py:284-286 | removing from a list without repeats leaves no copy behind, no repeat, and every other element |
| CppsTaskManager.SplicedDistinct | CPPS/cpps_task/cpps_task_manager.py:1173-1176 | cutting a position out of a list without repeats leaves no repeat and no copy of what was cut |
| CppsTaskManager.SplicedMembers | CPPS/cpps_task/cpps_task_manager.py:1173-1176 | cutting a position out keeps exactly the other elements |
| CppsTaskManager.Spliced | CPPS/cpps_task/cpps_task_manager.py:1173-1176 | cutting out position i leaves the elements before it in place and moves the ones after it down one place |
| CppsTaskManager.StartableIds | CPPS/cpps_task/cpps_task_manager.py:221-227 | one entry per task: its id when it is open or restarted, nothing otherwise |
| CppsTaskManager.FirstFree | CPPS/cpps_task/cpps_task_manager.py:273-282 | the first draw not yet blocked, and None exactly when every draw is blocked |
| CppsTaskManager.RestoreAsWritten | CPPS/cpps_task/cpps_task_manager.py:284-290 | as written, restoring succeeds exactly when the address is blocked, and fails with an exception otherwise |
| CppsTaskManager.RestoreUnblockedRaises | CPPS/cpps_task/cpps_task_manager.py:284-290 | an address that is not blocked makes `restore_free_klt` raise instead of returning False |
| CppsTaskManager.TaskManager.constructor | CPPS/cpps_task/cpps_task_manager.py:124-146 | both reference maps hold `param` copies of each configured value, and no container is blocked |
| CppsTaskManager.TaskManager.UpdateReferenceTurningTime | CPPS/cpps_task/cpps_task_manager.py:348-353 | KeyError for an unknown operation and IndexError for an empty window, both changing nothing; otherwise only the operation's turning-time window changes, and it slides by the rounded new value |
| CppsTaskManager.TaskManager.UpdateReferenceReview | CPPS/cpps_task/cpps_task_manager.py:355-360 | KeyError for an unknown operation and IndexError for an empty window, both changing nothing; otherwise only the operation's review window changes, and it slides by the rounded new value |
| CppsTaskManager.WindowAverage | CPPS/cpps_task/cpps_task_manager.py:296-302 | `sum(window) / len(window)`: KeyError for an operation without a window, ZeroDivisionError for an empty one, and otherwise a value that times the window's length gives its sum |
| CppsTaskManager.TaskManager.ReferenceTurningTimeRemaining | CPPS/cpps_task/cpps_task_manager.py:307-314 | succeeds exactly when every finished operation has a non-empty turning-time window, and then is the given total minus the average turning time of every finished operation; otherwise the error is that of the first finished operation whose average fails, KeyError or ZeroDivisionError |
| CppsTaskManager.TaskManager.ReserveFreeKlt | CPPS/cpps_task/cpps_task_manager.py:273-282 | the first of the twenty draws that is not blocked is blocked and returned: a container address 20–23 that was free; 99 and no change when all draws are taken; no address blocked twice |
| CppsTaskManager.TaskManager.RestoreFreeKlt | CPPS/cpps_task/cpps_task_manager.py:284-290 | True exactly when the address was blocked, and then the address is released; otherwise False and no change. It agrees with the code as written whenever that does not raise |
| CppsTaskManager.NextTask | CPPS/cpps_task/cpps_task_manager.py:219-227 | None exactly when no task is open or restarted; otherwise one of them with the smallest task id, the first on a tie |
| CppsTaskManager.ReviewOf | CPPS/cpps_task/cpps_task_manager.py:565-569 | nothing for an offer without a valuation; otherwise its valuation divided by its operation's average review, KeyError when the operation has no review window and ZeroDivisionError when the window is empty or averages to zero |
| CppsTaskManager.ReviewsOfEach | CPPS/cpps_task/cpps_task_manager.py:563-578 | when every offer's review succeeds, the offers are reviewable and the reviews are exactly those results, in order |
| CppsTaskManager.ReviewBlocks | CPPS/cpps_task/cpps_task_manager.py:563-578 | one offer whose review fails makes the whole list unreviewable |
| CppsTaskManager.Reviews | CPPS/cpps_task/cpps_task_manager.py:563-573 | for each offer, its valuation divided by its operation's average review, or nothing when there is no valuation |
| CppsTaskManager.Decision | CPPS/cpps_task/cpps_task_manager.py:550-633 | the offer chosen has the smallest review result, and a strictly smaller one than every earlier offer; there is none exactly when no offer has a valuation or the lowest one carries the 999 of a failed harmonisation |
| CppsTaskManager.FirstOfOperation | CPPS/cpps_task/cpps_task_manager.py:1168-1170 | the first selected node of the operation, None exactly when no selected node has it |
| CppsTaskManager.Deduplicated | CPPS/cpps_task/cpps_task_manager.py:1177-1178 | `list(set(...))`: exactly the same values, each once |
| CppsTaskManager.OthersConcat | CPPS/cpps_task/cpps_task_manager.py:1630-1635 | the entries other than the winner's pair split over concatenation |
| CppsTaskManager.OthersRemoved | CPPS/cpps_task/cpps_task_manager.py:1630-1635 | removing the winner's pair never touches the other entries |
| CppsTaskManager.PrunedKeepsOthers | CPPS/cpps_task/cpps_task_manager.py:1630-1635 | the reject loop never loses or reorders a reject of another operation or workstation |
| CppsTaskManager.PrunedAbsent | CPPS/cpps_task/cpps_task_manager.py:1630-1635 | with the winner's pair absent, the reject loop changes nothing |
| CppsTaskManager.PrunedRemovesSingle | CPPS/cpps_task/cpps_task_manager.py:1630-1635 | with the winner's pair in the list at most once, the pruned list no longer holds it |
| CppsTaskManager.PrunedKeepsAdjacentCopy | CPPS/cpps_task/cpps_task_manager.py:1630-1635 | as written, a second copy of the winner's pair right behind the first survives the reject loop |
| CppsTaskManager.TaskAgent.constructor | CPPS/cpps_task/cpps_task_manager.py:421-453 | a new agent has the loaded priority graph, sequence index 1, completion time 0 and has not failed |
| CppsTaskManager.TaskAgent.LowestReview | CPPS/cpps_task/cpps_task_manager.py:562-580 | succeeds exactly when every offer can be reviewed, and then gives the first offer with the lowest review result, none when no offer has a valuation; otherwise the error is that of the first offer whose review fails, every earlier one having succeeded |
| CppsTaskManager.TaskAgent.DecisionFinding | CPPS/cpps_task/cpps_task_manager.py:530-633 | an offer that cannot be reviewed gives its KeyError or ZeroDivisionError and changes nothing; with no decision, the agent fails and the reference windows stay; otherwise the review window of the chosen operation slides by its valuation, and then either the turning-time update fails (KeyError for no window, IndexError for an empty one) with that window unchanged, or the chosen offer is returned and the turning-time window slides by its throughput time; the priority graph is untouched |
| CppsTaskManager.TaskAgent.UpdatePriorityGraph | CPPS/cpps_task/cpps_task_manager.py:1144-1245 | with no decision, no selected node or an unknown operation, the agent fails and nothing else changes. Otherwise the first selected node of the operation becomes the start node and is finished; its successors become its old ones together with the other selected nodes, each once; the index advances and the next completion time is start plus skill time. Every finished node stays finished |
| CppsTaskManager.TaskAgent.PreconditionsMet | CPPS/cpps_task/cpps_task_manager.py:1578-1593 | a node may be offered exactly when none of its preconditions has state 0; with states 0 or 1, exactly when all of them are finished |
| CppsTaskManager.TaskAgent.RejectsWithoutWinner | CPPS/cpps_task/cpps_task_manager.py:1626-1641 | an empty reject list fails the agent; otherwise the list is pruned as the loop does. The other rejects are kept in order, and without repeats the winner's pair is gone |
| CppsTaskManager.TaskAgent.CheckDeadline | CPPS/cpps_task/cpps_task_manager.py:1247-1265 | the agent fails exactly when it had failed already, or when, outside the demo mode, fewer than 20 seconds are left before the next completion time; the graph and timing are untouched |
| OrderProcessing.InitialStations | SFB876.py:212-225 | stations 1 to `amount`, none for an amount below 1, each unused, serving no order, named by its number and marked home exactly when it is the home station |
| OrderProcessing.FirstFree | SFB876.py:232-243 | the first station that is neither the home station nor in use, None exactly when there is none |
| OrderProcessing.FirstServing | SFB876.py:256-262 | the first station other than the home station that serves the order, None exactly when there is none |
| OrderProcessing.AssignReleaseValid | SFB876.py:232-262 | taking and releasing a station keeps every used station serving an order and the home station unused |
| OrderProcessing.ReleaseAfterAssign | SFB876.py:232-262 | releasing the station an order took restores the stations exactly, when no station served that order before |
| OrderProcessing.StationIdsDistinct | SFB876.py:212-222 | no two stations get the same id |
| OrderProcessing.PrefixedDecimalsDiffer | SFB876.py:218 | distinct numbers behind the same prefix give distinct ids |
| OrderProcessing.InitialStationsValid | SFB876.py:212-225 | new stations are consistent, and exactly the home station's number is marked home |
| OrderProcessing.Workstations.constructor | SFB876.py:212-225 | the stations are exactly the initial stations for `amount` and `home_station` |
| OrderProcessing.Workstations.IsFree | SFB876.py:227-230 | yes exactly when some station can take an order |
| OrderProcessing.Workstations.SetWorkstationByOrdernumber | SFB876.py:232-243 | the first free station serves the order and its id is returned; None and no change when no station is free |
| OrderProcessing.Workstations.GetWorkstationByOrdernumber | SFB876.py:245-249 | the id of the first station serving the order, the home station included; None exactly when no station serves it |
| OrderProcessing.Workstations.GetHomestation | SFB876.py:251-254 | the id of the first home station; None exactly when there is none |
| OrderProcessing.Workstations.ResetWorkstationByOrdernumber | SFB876.py:256-262 | the first station other than the home station serving the order is freed; false and no change exactly when there is none |
| OrderProcessing.Lookup | SFB876.py:110-113 | the value listed for a name; None exactly when the name is not listed |
| OrderProcessing.RobotAck | SFB876.py:102-146 | an arrived "return" of a known cart unblocks that cart's phynode and an arrived "deliver" records it as delivered; anything else, an unknown cart included, has no effect |
| OrderProcessing.KltValueInjective | SFB876.py:188-203 | two cart names never stand for the same phynode, so an acknowledgement acts on its own cart only |
| OrderProcessing.KltAddresses | SFB876.py:188-203 | there are fifteen carts; carts 1 to 5 carry phynodes 10 to 14 and carts 6 to 15 carry 50 to 59 |
| OrderProcessing.OrderAdministration.constructor | SFB876.py:271-278 | a new administration has no blocked phynode and no delivered cart |
| OrderProcessing.OrderAdministration.BlockPhynode | SFB876.py:335-352 | the phynode is appended to the blocked list exactly when the gateway answered 200; otherwise false and no change |
| OrderProcessing.OrderAdministration.UnblockPhynode | SFB876.py:354-361 | true exactly when the phynode was blocked, and then its first copy is removed; otherwise no change |
| OrderProcessing.OrderAdministration.SetAsDelivered | SFB876.py:366-370 | the cart is appended unless it is already recorded, so no cart is recorded twice |
| OrderProcessing.OrderAdministration.UnsetAsDelivered | SFB876.py:372-375 | with no repeats in the list, exactly the cart is dropped and the others stay in order |
| OrderProcessing.OrderAdministration.IsDelivered | SFB876.py:377-381 | true exactly when the cart is recorded as delivered |
| OrderProcessing.OrderAdministration.OnRobotAck | SFB876.py:102-146 | the acknowledgement's effect is carried out on the blocked or the delivered list, and an ack without effect changes nothing |
| OrderProcessing.UnblockAfterBlock | SFB876.py:335-361 | unblocking a phynode blocked once gives the blocked list back as it was |
| OrderProcessing.InternOrderList | SFB876.py:935-964 | one entry for the empty cart plus one per article |
| OrderProcessing.InternOrderListStep | SFB876.py:947-964 | one more article appends exactly its own intern order |
| OrderProcessing.InternOrderListShape | SFB876.py:935-964 | the cart comes first, with ordernumber oid·10 and item 0; article i follows with ordernumber oid·10 + i and its number and amount; no entry has a phynode or an acknowledgement yet |
| OrderProcessing.InternNumbersDistinct | SFB876.py:935-964 | the ordernumbers of one order's intern orders are all different |
| OrderProcessing.InternNumbersDisjoint | SFB876.py:935-964 | orders of fewer than ten articles never share an intern ordernumber |
| OrderProcessing.TenthArticleCollides | SFB876.py:935-964 | with ten articles, the last intern order of an order has the number of the next order's empty cart |
| OrderProcessing.FreshListUnlocated | SFB876.py:562-568 | a fresh list passes stage 1 exactly when no article has a real item number |
| OrderProcessing.MarkReturned | SFB876.py:906-912 | a round marks exactly the entries whose phynode is no longer blocked as returned, and changes nothing else |
| OrderProcessing.Stage6AsWritten | SFB876.py:899-927 | as written, the stage finishes exactly when its time budget is not zero and fails exactly when it is zero, whatever the carts do |
| OrderProcessing.Stage6FinishesUnreturned | SFB876.py:899-927 | as written, an order finishes while its cart is still blocked away from home |
| OrderProcessing.OrderProcessing.constructor | SFB876.py:441-453 | a new order process has no intern orders, no workstation, and is neither failed nor finished |
| OrderProcessing.OrderProcessing.CreateInternOrderList | SFB876.py:935-964 | exactly the order's intern orders are appended to the list |
| OrderProcessing.OrderProcessing.ValidateStage1 | SFB876.py:562-568 | true exactly when every article has a phynode |
| OrderProcessing.OrderProcessing.ValidateStage2 | SFB876.py:632-636 | an IndexError exactly when the list is empty; otherwise whether the empty cart has a phynode |
| OrderProcessing.OrderProcessing.ValidateStage3 | SFB876.py:727-735 | true exactly when a workstation is taken and every entry's phynode is blocked |
| OrderProcessing.OrderProcessing.ValidateStage4 | SFB876.py:815-819 | true exactly when every phynode has acknowledged |
| OrderProcessing.OrderProcessing.ValidateStage6 | SFB876.py:929-933 | true exactly when every cart is back |
| OrderProcessing.OrderProcessing.MarkReturnedRound | SFB876.py:906-912 | the intern orders after a round are exactly MarkReturned of those before |
| OrderProcessing.OrderProcessing.Stage6 | SFB876.py:899-927 | with a positive budget, the stage finishes exactly when every cart came back and fails otherwise; a zero budget fails it; no returned cart is ever unmarked |
| ByteQueue.ReadIndicesAsWritten | CC1200_interface/CC1200_driver/easylink/Queue.cpp:41-44 | as written, the shift loop reads array[i + 1] for every i below end |
| ByteQueue.FullReadOutOfBounds | CC1200_interface/CC1200_driver/easylink/Queue.cpp:41-44 | on a full queue the last pass of the shift loop reads array[QUEUESIZE], one past the end of the array |
| ByteQueue.Queue.Contents | CC1200_interface/CC1200_driver/easylink/Queue.cpp:21-22 | the queue holds exactly `end` bytes, oldest first |
| ByteQueue.Queue.constructor | CC1200_interface/CC1200_driver/easylink/Queue.cpp:3-6 | a new queue is empty |
| ByteQueue.Queue.BytesAvailable | CC1200_interface/CC1200_driver/easylink/Queue.cpp:50-53 | the free room and the bytes held add up to the capacity; no room is left exactly when the queue holds QUEUESIZE bytes |
| ByteQueue.Queue.BytesEnd | CC1200_interface/CC1200_driver/easylink/Queue.cpp:55-58 | the number of bytes held, never above the capacity |
| ByteQueue.Queue.Write | CC1200_interface/CC1200_driver/easylink/Queue.cpp:14-24 | true exactly when there was room, and then the byte is appended at the back; otherwise false and nothing changes |
| ByteQueue.Queue.Clear | CC1200_interface/CC1200_driver/easylink/Queue.cpp:26-29 | the queue holds nothing |
| ByteQueue.Queue.Read | CC1200_interface/CC1200_driver/easylink/Queue.cpp:32-48 | -1 and no change on an empty queue; otherwise the oldest byte is returned and the rest stay in order (first in, first out) |
| PixelStrip.Pow2 | LED/notification.py:30-34 | a power of two, at least 1 |
| PixelStrip.Or128 | LED/notification.py:76-78 | `x \| 0x80` sets bit 7 and keeps every other bit: x itself when bit 7 was set, x + 128 otherwise |
| PixelStrip.OrIntoZeroBits | LED/notification.py:30-34 | or-ing a value below 2^k into a multiple of 2^k adds it |
| PixelStrip.Color | LED/notification.py:25-36 | `color` for any Python integers, built with two's-complement or; with byte components it is the marked green, red and blue bytes side by side, in that order |
| PixelStrip.ColorBytes | LED/notification.py:25-36 | with byte components, each marked byte of `color` reads back on its own |
| PixelStrip.ThreeBytes | LED/notification.py:25-36 | three bytes placed side by side read back one by one |
| PixelStrip.Strip.constructor | LED/notification.py:10-16 | a buffer of three zeros per pixel |
| PixelStrip.Strip.NumPixels | LED/notification.py:22-23 | the number of pixels given at construction |
| PixelStrip.Strip.Slot | LED/notification.py:74-78 | the pixel a Python index addresses, a negative one counting from the end, is always a real pixel |
| PixelStrip.Strip.SetPixelRGB | LED/notification.py:74-78 | no change for an index past the end; IndexError and no change below minus the pixel count; otherwise exactly the pixel's three slots (counted from the end for a negative index) get g, r and b with the top bit set. Every slot stays zero or marked |
| PixelStrip.Strip.SetPixelColor | LED/notification.py:80-85 | no change for an index past the end; IndexError and no change below minus the pixel count; otherwise exactly the pixel's three slots (counted from the end for a negative index) get the shifted colour with the top bit set. Every slot stays zero or marked |
| PixelStrip.ColorMatchesRGB | LED/notification.py:25-85 | setting a pixel to `color(r, g, b)` puts on the wire the same three bytes as setting it with r, g and b |
| PixelStrip.LowByteMarked | LED/notification.py:83-85 | a value whose low byte has its top bit set is left alone by `\| 0x80` and keeps its low byte |
| OrderModels.ArticleFromDict | models.py:65-68 | an article exactly when id, number and name are all present, a KeyError otherwise; id, number and name are taken from the dictionary and the amount from the argument |
| OrderModels.ArticleRoundTrip | models.py:65-76 | an article survives the round trip through its dictionary, which has exactly the four keys |
| OrderModels.OrderFromDict | models.py:85-109 | a KeyError when any of the nine keys is missing; otherwise the id is `int` of the stored id and every other field is copied as it is |
| OrderModels.OrderToDict | models.py:111-122 | the dictionary has exactly the nine keys of an order |
| OrderModels.OrderRoundTripWraps | models.py:96-122 | reading an order back from its dictionary keeps the id, date and state but wraps the articles and every stage one list deeper, so the result is never the order itself |
| CppsTask.Joined | CPPS/cpps_task/cpps_task.py:39-44 | the joined value is a string exactly when every key is present with a string value |
| CppsTask.ProductVariant | CPPS/cpps_task/cpps_task.py:35-45 | the empty dictionary for an empty configuration or a missing key; engine, top-down, drone and mounting colours joined by underscores when all four are present; a string exactly when all four are |
| CppsTask.SplitLastOf | CPPS/cpps_task/cpps_task.py:39-42 | splitting a + "_" + b at its last underscore gives a and b back, when b has no underscore |
| CppsTask.VariantNamesColors | CPPS/cpps_task/cpps_task.py:35-45 | when no colour contains an underscore, the variant names its three colours: splitting at the last underscores gives them back |
| CppsTask.NewTask | CPPS/cpps_task/cpps_task.py:7-33 | a task exactly when the product variant can be built; the given fields, the defaults (no container, no robot, empty stages, nine empty dictionaries) and the variant the configuration names |
| CppsTask.PairsOf | CPPS/cpps_task/cpps_task.py:54 | `dict` of a list of string-keyed pairs has exactly the pairs' keys, the last pair's value winning; any other element gives no such dictionary |
| CppsTask.DictOf | CPPS/cpps_task/cpps_task.py:54 | `dict` copies a dictionary, gives the empty dictionary for the empty string or list and ValueError for any other string, builds the dictionary of a list of pairs, and raises TypeError for None, booleans and numbers |
| CppsTask.FromDict | CPPS/cpps_task/cpps_task.py:47-56 | a KeyError when task_id, state or configuration is missing, the error of `dict` when the configuration cannot be converted; otherwise the id is `int` of the stored id, the state is copied, the configuration is `dict` of the stored one, and the date is the load time |
| CppsTask.FromDictOfToDict | CPPS/cpps_task/cpps_task.py:47-81 | loading a stored task gives back its id, state, configuration and product variant; the date becomes the load time and the container, robot and end time start afresh |
| CppsTask.ToDictKeys | CPPS/cpps_task/cpps_task.py:58-63 | the stored dictionary holds the id, state and configuration as they are in the task |
| CppsTask.NewTaskWellFormed | CPPS/cpps_task/cpps_task.py:22 | a new task's stored variant is the one its configuration names |
| RadioPackets.NewCCPacket | gateway_interface.py:99-113 | a packet exactly when the payload is bytes and the address an int, a TypeError otherwise; the packet has zero status bytes, the given address and payload, and a length field that agrees with the payload |
| RadioPackets.GetBytes | gateway_interface.py:118-121 | bytes exactly when the four header values each fit in a byte: the two status bytes, the payload length and the address, then the payload; a struct.error otherwise |
| RadioPackets.InitCc | gateway_interface.py:161-172 | an access-point packet exactly when a CCPacket comes with an int module in 0–3; a ValueError for a module outside that range |
| RadioPackets.NewAPPacket | gateway_interface.py:150-176 | two or three arguments, a ValueError for any other number; a packet only for modules 0–3; from three arguments, a packet exactly when the module and address are ints and the payload bytes |
| RadioPackets.SendBytes | gateway_interface.py:178-182 | the bytes written to the transmit FIFO are the module number followed by the packet's bytes |
| RadioPackets.Unpack | gateway_interface.py:979-987 | a struct.error for fewer than five bytes; otherwise a packet exactly when the module byte is below 4, with the status bytes, address and payload read from their places |
| RadioPackets.UnpackOfSend | gateway_interface.py:178-182 | reading back what `send` wrote gives the packet again, with its length field recomputed from the payload |
| RadioPackets.NewPacketRoundTrip | gateway_interface.py:150-182 | a packet built from module, address and payload comes back from its bytes as it was built |
| RadioPackets.ModuleFourRefused | gateway_interface.py:168-169 | only modules 0 to 3 exist: a packet for module 4 is refused |
| RadioPackets.Frames | gateway_interface.py:979-981 | the pieces handled are the leading non-empty ones; the piece after them, if any, is empty |
| RadioPackets.ReceivedOfFramed | gateway_interface.py:969-981 | frames that are non-empty, contain no b'\r\n' and are each followed by b'\r\n' are received as they were written |
| RadioPackets.FramesStop | gateway_interface.py:979-981 | the handling stops at the first empty piece |
| RadioProtocol.Below | gateway_interface.py:229 | exactly the numbers 0 to n − 1 |
| RadioProtocol.LogKeys | gateway_interface.py:228-232 | exactly the sequence numbers 0 to 255 have a reply list |
| RadioProtocol.EmptyLog | gateway_interface.py:228-232 | an empty reply list for each of the sequence numbers 0 to 255 and no other |
| RadioProtocol.DecimalHasNoSpace | gateway_interface.py:251 | the decimal text of a number has no space in it |
| RadioProtocol.Decimals | gateway_interface.py:251 | the decimal text of each number, in order |
| RadioProtocol.WordsOfJoin | gateway_interface.py:258-259 | words without spaces come back from the text they are joined into |
| RadioProtocol.RequestText | gateway_interface.py:249-259 | the text `_mkmsg` makes is the command's two words, the sequence number and the parameters, single-spaced |
| RadioProtocol.RequestWords | gateway_interface.py:249-259 | a phynode splitting a request at its spaces reads the two words of the command, the sequence number and the parameters |
| RadioProtocol.CCPhyParser.constructor | gateway_interface.py:223-226 | sequence number 0 and an empty reply list for every sequence number |
| RadioProtocol.CCPhyParser.LogBySeqnr | gateway_interface.py:240-241 | the reply goes to the end of its sequence number's list; a KeyError and no change outside 0–255 |
| RadioProtocol.CCPhyParser.GetBySeqnr | gateway_interface.py:243-247 | the replies logged for the sequence number are returned and then forgotten; a KeyError and no change outside 0–255 |
| RadioProtocol.CCPhyParser.MkMsg | gateway_interface.py:249-256 | the command, the current sequence number and the parameters, single-spaced; the sequence number then advances modulo 255 and the reply lists stay |
| RadioProtocol.CCPhyParser.CreateSadrRequest | gateway_interface.py:278-279 | the phynode reads SADR, Q, the request's sequence number, the unique id and the new address, and the sequence number reads back as the one the request used |
| RadioProtocol.SeqnrWraps | gateway_interface.py:255 | sequence numbers run 0, 1, …, 254, 0, so a request never uses 255 |
| Selection.FirstMinOf | CPPS/cpps_employee/cpps_employee_gateway.py:303-311 | None exactly when no candidate takes part; otherwise a candidate no other beats, and strictly better than every earlier one |
| Selection.FirstMinOfStep | CPPS/cpps_employee/cpps_employee_gateway.py:303-311 | one step of the best-so-far walk: a new candidate replaces the best only when it is strictly better |
| Selection.FirstMinOfSnoc | CPPS/cpps_task/cpps_task_manager.py:575-578 | the same step for a walk over the review results themselves: an offer without one leaves the best alone, and one with a strictly smaller result takes its place |
| PyInt.DigitChar | CPPS/cpps_task/cpps_task.py:50 | a digit character whose distance from '0' is the digit |
| PyInt.NatDigits | CPPS/cpps_task/cpps_task.py:50 | a non-empty run of digit characters |
| PyInt.DigitsValue | CPPS/cpps_task/cpps_task.py:50 | a value only for a non-empty text |
| PyInt.DigitsOfNat | CPPS/cpps_task/cpps_task.py:50 | the digits of a natural number read back as that number |
| PyInt.ParseDecimalOfDecimal | models.py:86 | `int(str(i)) == i` for every int |
| PyInt.Truncate | models.py:86 | `int` of a float truncates toward zero |
| PyInt.IntOf | models.py:86 | ints are kept as they are; a text converts exactly when it is a decimal number; None, lists and dictionaries give a TypeError |
| PyInt.IntOfDecimal | CPPS/cpps_task/cpps_task.py:50 | a decimal text converts to the number it spells |
| PyInt.StrOf | CPPS/cpps_task/cpps_task.py:39 | `str` keeps a text and gives an int's decimal text |
| TextSplit.Find | gateway_interface.py:652-660 | the first place the separator occurs; None exactly when it does not occur |
| TextSplit.AtTail | gateway_interface.py:652-660 | dropping the first element moves every occurrence one place to the left |
| TextSplit.AtConcat | gateway_interface.py:652-660 | an occurrence that ends inside a is one in a + b, and the other way round |
| TextSplit.FindFirst | gateway_interface.py:652-660 | an occurrence with none before it is the one found |
| TextSplit.FindPrefix | gateway_interface.py:652-660 | what follows an occurrence does not move it |
| TextSplit.NoneBefore | gateway_interface.py:652-660 | a prefix with no occurrence has none |
| TextSplit.Split | gateway_interface.py:477-480 | at least one piece, and no piece contains the separator |
| TextSplit.JoinSplit | gateway_interface.py:652-660 | splitting loses nothing: joining the pieces with the separator gives the text back |
| TextSplit.SplitJoin | gateway_interface.py:249-259 | joining then splitting gives the pieces back when none of them contains the separator |
| TextSplit.SeparableSingle | gateway_interface.py:477-480 | with a one-character separator, a piece without it is followed by the separator's first occurrence |
| TextSplit.SeparablePair | gateway_interface.py:969-971 | with a separator of two different elements, a piece without it is followed by the separator's first occurrence |
| TextSplit.JoinAppend | gateway_interface.py:249-259 | joining two non-empty runs of pieces puts one separator between them |
| TextSplit.Join2 | gateway_interface.py:258-259 | two pieces joined with one separator between them |
| TextSplit.Join3 | gateway_interface.py:258-259 | three pieces joined with a separator between each |
| RadioLines.Ints | gateway_interface.py:496-631 | the numbers of every field when each field is a decimal integer, and None exactly when some field is not (where `int()` raises ValueError) |
| RadioLines.GrowsTransitive | gateway_interface.py:648-650 | two steps that each forget nothing together forget nothing: reply lists and the poll list only get longer, the phynodes stay the same nodes |
| RadioLines.Apply | gateway_interface.py:494-631 | a line's action raises exactly when a field is missing or not a number, or when it logs a reply under a sequence number the parser never issued (the KeyError of `log_by_seqnr`); a raising line changes nothing; no action forgets anything |
| RadioLines.RunLines | gateway_interface.py:648-650 | the lines act in order and stop at the first that raises, keeping what the earlier ones did; when nothing is returned, no line raised |
| RadioLines.WordsOfLine | gateway_interface.py:480 | a line built from a command word, a mode and fields without spaces splits back into exactly those words |
| RadioLines.IntsOfDecimals | gateway_interface.py:496-631 | fields written as decimal numbers read back as the same numbers |
| RadioLines.NumericLineWords | gateway_interface.py:480 | a field written as a decimal number holds no space, so it stays one word |
| RadioLines.ClassifyOfWords | gateway_interface.py:480-494 | the first word picks the command, the second the mode (R for replies, M for messages) and the rest are the fields |
| RadioLines.ClassifyNumeric | gateway_interface.py:480-494 | a line of a command word, a mode and numeric fields is classified by the reply or message rule applied to those numbers |
| RadioLines.ClassifyDuid | gateway_interface.py:499-508 | a DUID reply with three numbers logs the unique id under the reply's sequence number; the address field is read but not used |
| RadioLines.ClassifyPoll | gateway_interface.py:543-558 | a POLL reply with five numbers stores the poll with its order, amount, address and energy |
| RadioLines.ClassifyEnum | gateway_interface.py:559-576 | an ENUM reply with six numbers logs item, amount, address, order and order amount under its sequence number |
| RadioLines.ReplyOfNumbers | gateway_interface.py:494-608 | for a reply whose fields all read as numbers, the classified action is the rule of its command applied to those numbers |
| RadioLines.MessageOfNumbers | gateway_interface.py:609-631 | for a message whose fields all read as numbers, the classified action is the rule of its command applied to those numbers |
| RadioLines.ClassifyRsve | gateway_interface.py:596-604 | a RSVE reply logs the order under its sequence number and blocks the order's node |
| RadioLines.ClassifyOneFieldAck | gateway_interface.py:582-595 | ISRT and SETI replies with one number log an acknowledgement under that sequence number |
| RadioLines.ClassifyTwoFields | gateway_interface.py:512-542 | a reply of a sequence number and one more word splits into those words and goes by the reply rule, with the first field read back as the sequence number |
| RadioLines.ClassifyAck | gateway_interface.py:512-525 | SADR and CHNL replies that carry ACK log an acknowledgement under their sequence number |
| RadioLines.ClassifyBats | gateway_interface.py:534-540 | a BATS reply logs an acknowledgement under its sequence number whatever its second field |
| RadioLines.ClassifyRsto | gateway_interface.py:610-617 | a RSTO message with three or more numbers restores the addressed node for the order; the uid field is not used |
| RadioLines.ClassifyEnergy | gateway_interface.py:618-631 | FULE and LOWE messages with two numbers record the energy of the addressed node |
| RadioLines.WrongArityRejected | gateway_interface.py:499-598 | a reply with the wrong number of fields for its command is reported and leaves the state unchanged |
| RadioLines.OneWordInvalid | gateway_interface.py:480-484 | a line without a space is an invalid line, reported and otherwise ignored |
| RadioLines.LineReader.constructor | gateway_interface.py:467-472 | the reader works on the given protocol parser and phynode table |
| RadioLines.LineReader.ParseLine | gateway_interface.py:477-631 | the reply log, phynodes and poll list become what the line's action makes of them, the error it raises is returned, and the parser's sequence counter is untouched |
| RadioLines.LinesLoseNothing | gateway_interface.py:656-660 | the complete lines and the waiting rest, joined by the line separator, are the buffer again, and none of them holds a separator |
| RadioLines.LinesArePieces | gateway_interface.py:656-660 | the complete lines followed by the rest are the pieces of the buffer split at the separator |
| RadioLines.LinesOfSent | gateway_interface.py:656-660 | lines sent each followed by the separator, then a partial line, are read back as exactly those lines with the partial one waiting |
| RadioLines.SerialReader.constructor | gateway_interface.py:640-643 | the receive buffer starts empty |
| RadioLines.SerialReader.DataReceived | gateway_interface.py:652-662 | undecodable data changes nothing; otherwise the complete lines of the buffer are parsed in order, the buffer keeps only the unfinished rest, and when a line raises the error is returned and the buffer keeps everything |
| PhynodeTable.FirstAt | gateway_interface.py:828-829 | the first node with the address, or None exactly when no node has it |
| PhynodeTable.LastAt | gateway_interface.py:851-853 | the last node with the address, or None exactly when no node has it |
| PhynodeTable.FirstForOrder | gateway_interface.py:836-837 | the first node reserved for the order, or None exactly when no node is |
| PhynodeTable.EnergyUpdated | gateway_interface.py:814-818 | every node with the address takes the energy and timestamp; every other node and every node's identity are unchanged |
| PhynodeTable.BlockedForOrder | gateway_interface.py:835-840 | only the first node reserved for the order becomes blocked; no such node means no change |
| PhynodeTable.Restored | gateway_interface.py:854-865 | with a non-zero order the node is released from its order, flagged as restored and blocked exactly when its container is empty; with order 0 a blocked node is unblocked and flagged, an unblocked one stays as it was |
| PhynodeTable.RstoAsWritten | gateway_interface.py:849-866 | as written, the restore acts on the last node of the table whatever its address |
| PhynodeTable.RstoApplied | gateway_interface.py:849-866 | the restore acts on the node with the address and no other; an unknown address changes nothing |
| PhynodeTable.RstoHitsLastNode | gateway_interface.py:849-866 | a restore for node 10 and order 5 flags node 58 and leaves node 10 untouched as written, and the reverse as intended |
| PhynodeTable.RstoStatus | gateway_interface.py:868-880 | the restore flag of the first node with the address, None exactly when no node has it |
| PhynodeTable.RstoCleared | gateway_interface.py:868-880 | reading the flag clears it on that node and changes no node's identity |
| PhynodeTable.RstoReadOnce | gateway_interface.py:868-880 | a restore flag is reported once: reading again gives false, and clearing twice is clearing once |
| PhynodeTable.Matching | gateway_interface.py:900-905 | the polls handed out all belong to the order |
| PhynodeTable.Others | gateway_interface.py:900-905 | the polls kept all belong to other orders |
| PhynodeTable.MatchingOthersPartition | gateway_interface.py:900-905 | the polls handed out and the polls kept are, as a multiset, exactly the polls there were |
| PhynodeTable.PoppedAsWritten | gateway_interface.py:900-905 | as written, popping while enumerating hands out only polls of the order, but the poll after each popped one is never examined |
| PhynodeTable.AdjacentPollSkipped | gateway_interface.py:900-905 | two polls of the same order in a row: as written only the first is handed out and the second stays, while both belong to the order |
| PhynodeTable.Preserver.constructor | gateway_interface.py:764-767 | the table is the fourteen nodes `init` lists and no poll is waiting |
| PhynodeTable.Preserver.UpdateEnergy | gateway_interface.py:814-825 | the table becomes EnergyUpdated of the old table; the polls are untouched |
| PhynodeTable.Preserver.RsveByPhyaddr | gateway_interface.py:827-833 | true exactly when some node has the address; then the first such node is reserved for the order and nothing else changes; otherwise nothing changes |
| PhynodeTable.Preserver.BlockByOrdernumber | gateway_interface.py:835-840 | the table becomes BlockedForOrder of the old table |
| PhynodeTable.Preserver.IsBlocked | gateway_interface.py:842-847 | as written only the first node is examined: true only when it has the address and is blocked, false when its address differs, None for an empty table |
| PhynodeTable.Preserver.RstoByPhyaddr | gateway_interface.py:849-866 | the table becomes RstoApplied of the old table; the polls are untouched |
| PhynodeTable.Preserver.GetRstoStatus | gateway_interface.py:868-880 | returns the flag RstoStatus reads and leaves the table RstoCleared |
| PhynodeTable.Preserver.GetByOrdernumber | gateway_interface.py:900-905 | every poll of the order is handed out in arrival order, the polls of other orders stay in order, and together they are the old polls |
| PhynodeTable.Preserver.StoreByOrdernumber | gateway_interface.py:907-909 | the poll is queued at the end and its node's energy recorded with the timestamp |
| PhynodeTable.Preserver.Reset | gateway_interface.py:882-884 | the table is as `init` made it; waiting polls stay |
| Dhcp.IndexOfDuid | gateway_interface.py:700 | the position of the device with the id, None exactly when no device has it |
| Dhcp.FirstWithSeqnr | gateway_interface.py:727-728 | the first device whose last offer carried the sequence number, None exactly when none did |
| Dhcp.Dhcp.constructor | gateway_interface.py:683-687 | no devices, no addresses indexed, and address 1 is the next to offer |
| Dhcp.Dhcp.Clients | gateway_interface.py:741-742 | the addresses of exactly the devices whose assignment completed |
| Dhcp.Dhcp.Offer | gateway_interface.py:698-724 | a new id gets the next address, which then advances, and the request reads SADR Q, the sequence number, the id and the address; a known incomplete id is offered its address again under a new sequence number; a completed id gets nothing; the parser's sequence number advances modulo 255 exactly when a request is sent; ids and addresses stay unique |
| Dhcp.Dhcp.Ack | gateway_interface.py:726-739 | true exactly when some device's last offer carried the sequence number; the first such device completes and is indexed by its address; otherwise nothing changes |
| RadioStatsTable.Bump | gateway_interface.py:400-405 | one more packet in the direction and the other count unchanged |
| RadioStatsTable.RadioStats.constructor | gateway_interface.py:327-338 | counting off and no counters at all: the reset's counters are replaced by None |
| RadioStatsTable.RadioStats.Reset | gateway_interface.py:340-347 | counting off, with only the broadcast counters, at zero |
| RadioStatsTable.RadioStats.EnableRuntimeStats | gateway_interface.py:374-385 | counting on; without counters TypeError and still no counters; otherwise broadcasts and every client have zeroed counters and every other address keeps its counts |
| RadioStatsTable.RadioStats.DisableRuntimeStats | gateway_interface.py:387-388 | counting off and the counts kept |
| RadioStatsTable.RadioStats.LogPacket | gateway_interface.py:393-405 | nothing while counting is off or for an unknown address; TypeError exactly when counting is on without counters; a broadcast sent counts for every address; any other packet counts for its address only; no count goes down |

## Left out

- HTTP, MQTT, MongoDB, pickle, configuration files and log/CSV files: peer
  replies, configuration values and stored data are inputs; publishing and
  logging are not modelled.
- Threads, locks, `time.sleep` and the run loops. The unblock thread of the
  picking gateway is modelled only as its per-task rule.
- The clock and `random`: clock readings are inputs, and the 20 draws of
  `reserve_free_klt` are the input sequence `draws`.
- The stage 1–5 loops of `SFB876.py`, whose outcomes are inputs; only their
  validation predicates are modelled.
- The HTTP parts of `book_workstation`, `book_picking_task` and the agent's stages.
- Floating-point numerics:
  - The `math.exp` normalisation is the function parameter `norm`.
  - `round(v, 3)` is the parameter `round3`.
  - Times and costs are `real`, without rounding.
- The adaptive alpha-time formula of the task agent.
- Radio hardware: the CC1200 drivers, SPI/GPIO and FIFO file I/O.
  - Packets are modelled as the bytes written and read.
  - UTF-8 encoding and decoding is left to the caller: texts are modelled
    before encoding, and undecodable data arrives as None.
- The `CCPhyParser` request builders other than SADR, plus `get_rssi`, the
  ping/statistics/discover helpers of `RadioStats` and `DHCP`, and their dumps.
- LED output (`write8`, `show`, `begin`) and the animation helpers (`blink`,
  `knight_rider`, `color1by1`, `initializeStrip`).
- The employee setters and the agents' attributes other than calendar, skills,
  block flag and cookie.
- The pointer corruption of the linked calendars (for example a new head that
  leaves a same-cycle run linked only backwards). The calendars are modelled
  by sequence semantics.
- PyInt.IntOf: Python's `int()` accepts surrounding whitespace and underscores;
  the model reads plain decimal text only. The `repr` of a float, list or dictionary is
  a parameter.
- `CppsEmployeeGateway.EmployeeGateway.Valid` and `CppsWorkstationGateway.WorkstationGateway.Valid` assume unique ids. Loading
  agents from the configuration file does not enforce this.
- CppsTask.DictOf: a non-empty list whose elements are not all two-element
  lists keyed by a string is modelled as TypeError. Python's `dict` also takes
  two-character strings and other two-element sequences as pairs and keys that
  are not strings, and raises ValueError for elements of another length.
- CppsEmployee.Employee.OfferFor: zero labour costs or a zero work duration
  make `math.exp(-1 / costs)` raise ZeroDivisionError in the source; the model
  values such an offer with `norm` of zero instead.
- CppsWorkstationGateway.FiguresOf, CppsEmployee.Employee.OfferFor: `math.exp`
  raises OverflowError for arguments above about 709, which a small negative
  throughput time, deviation or cost produces; `norm` is total.
- CppsWorkstationGateway.ReserveWorkstation: the log lines turn the completion
  time and the departure into dates, which raises for timestamps outside the
  range of `datetime`; only the infinite departure of a zero velocity is
  modelled.
- CppsPickingGateway.LowestEnergy: returns None when no item carries the
  ordernumber. The source then raises TypeError when it reads the result.
- CppsTaskManager.Deduplicated: states the values and their distinctness but
  not the order in which `list(set(...))` yields them, which Python does not fix.

## Findings

| source | as written | input that shows it | evidently intended | confidence | as-written member | corrected member |
|---|---|---|---|---|---|---|
| CPPS/cpps_task/cpps_task_manager.py:284-290 | `restore_free_klt` calls `list.remove` inside a handler that catches only KeyError, but `list.remove` raises ValueError | an unblocked address, e.g. 22 with blocked list [21]: ValueError escapes | an address that is not blocked gives False and changes nothing | high; not executed | CppsTaskManager.RestoreUnblockedRaises | CppsTaskManager.TaskManager.RestoreFreeKlt |
| CC1200_interface/CC1200_driver/easylink/Queue.cpp:41-44 | the shift loop of `read` copies array[i+1] for every i < end | a full queue (end = 128): the last pass reads array[128], one past the array | shift only the end - 1 bytes that follow the one read | high; not executed | ByteQueue.FullReadOutOfBounds | ByteQueue.Queue.Read |
| CPPS/cpps_workstation/cpps_workstation.py:145-152 | after a run of same-cycle entries that started right after the head, `temp_iterator == self.head` is read as "no predecessor" | the calendar [a at 0.0 length 10.0, c at 0.0 length 1.0, b at 100.0 length 10.0]; a new slot of cycle c, length 10.0, asked for 5.0 passes the test at line 213, is linked in front of b and stays at 5.0, inside the head's slot plus rotating time (up to 15.0) | a shift is measured from the nearest earlier entry of another cycle, so the slot begins at 15.0 | medium; not executed | SlotScan.WorkstationHeadRunOverlap | CppsWorkstation.AppendedStart |
| CPPS/cpps_employee/cpps_employee.py:191-197 | `temp_iterator` is a copy of the run's first node, so `temp_iterator == self.head` never holds and a run starting at the head takes that head entry, of the same cycle, as its predecessor | the calendar [c at 0.0 length 50.0, b at 100.0 length 10.0, d at 200.0 length 1.0]; a new slot of cycle c, length 5.0, asked for 10.0 takes the head as its predecessor and is moved to 50.0 | entries of the slot's own cycle never cause a shift; the slot stays at 10.0 | medium; not executed | SlotScan.EmployeeOwnCycleShift | CppsEmployee.AppendedStart |
| gateway_interface.py:900-905 | `get_by_ordernumber` pops from the list it is enumerating | two polls of the same order in a row: only the first is handed out, the second stays | every poll of the order is handed out | high; not executed | PhynodeTable.AdjacentPollSkipped | PhynodeTable.Preserver.GetByOrdernumber |
| gateway_interface.py:849-866 | `rsto_by_phyaddr` reuses the loop variable, which ends on the last node whatever its address | a restore for node 10 with order 5 in the initial table flags node 58 and leaves node 10 untouched | the node with the address is restored | high; not executed | PhynodeTable.RstoHitsLastNode | PhynodeTable.Preserver.RstoByPhyaddr |
| SFB876.py:904-927 | `_stage_6` tests the bound method `self._validate_stage_6` instead of calling it; a method is always true, so the waiting loop never runs | any order with a positive time budget whose cart is still blocked: stage 6 completes at once | wait until every cart has come home or the budget runs out | high; not executed | OrderProcessing.Stage6FinishesUnreturned | OrderProcessing.OrderProcessing.Stage6 |
