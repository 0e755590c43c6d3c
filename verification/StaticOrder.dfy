/** The static table is sorted: no two of its entries can change places. */
module StaticOrder {
  import opened Bytes
  import opened Tables
  import opened StaticTable

  /** `a` and `b` agree before position `k`, where `a` has ended or has the smaller byte. */
  predicate LessAt(a: seq<byte>, b: seq<byte>, k: nat) {
    && k <= |a| && k < |b| && (forall j :: 0 <= j < k ==> a[j] == b[j])
    && (k == |a| || a[k] < b[k])
  }

  /** The order of a dictionary. */
  ghost predicate Less(a: seq<byte>, b: seq<byte>) {
    exists k: nat :: LessAt(a, b, k)
  }

  /** By name, and by value where the names are equal. */
  ghost predicate Before(f: HeaderField, g: HeaderField) {
    Less(f.name, g.name) || (f.name == g.name && Less(f.value, g.value))
  }

  lemma Ascend1(i: nat)
    requires 1 <= i < 7
    ensures Before(Entry(i), Entry(i + 1))
  {
    match i
    case 1 => assert LessAt(Entry(1).name, Entry(2).name, 1);
    case 2 => assert LessAt(Entry(2).value, Entry(3).value, 0);
    case 3 => assert LessAt(Entry(3).name, Entry(4).name, 1);
    case 4 => assert LessAt(Entry(4).value, Entry(5).value, 1);
    case 5 => assert LessAt(Entry(5).name, Entry(6).name, 1);
    case 6 => assert LessAt(Entry(6).value, Entry(7).value, 4);
  }

  lemma Ascend7(i: nat)
    requires 7 <= i < 14
    ensures Before(Entry(i), Entry(i + 1))
  {
    match i
    case 7 => assert LessAt(Entry(7).name, Entry(8).name, 2);
    case 8 => assert LessAt(Entry(8).value, Entry(9).value, 2);
    case 9 => assert LessAt(Entry(9).value, Entry(10).value, 2);
    case 10 => assert LessAt(Entry(10).value, Entry(11).value, 0);
    case 11 => assert LessAt(Entry(11).value, Entry(12).value, 0);
    case 12 => assert LessAt(Entry(12).value, Entry(13).value, 2);
    case 13 => assert LessAt(Entry(13).value, Entry(14).value, 0);
  }

  lemma Ascend14(i: nat)
    requires 14 <= i < 20 && i != 18
    ensures Before(Entry(i), Entry(i + 1))
  {
    match i
    case 14 => assert LessAt(Entry(14).name, Entry(15).name, 0);
    case 15 => assert LessAt(Entry(15).name, Entry(16).name, 7);
    case 16 => assert LessAt(Entry(16).name, Entry(17).name, 7);
    case 17 => assert LessAt(Entry(17).name, Entry(18).name, 7);
    case 19 => assert LessAt(Entry(19).name, Entry(20).name, 4);
  }

  lemma Ascend20(i: nat)
    requires 20 <= i < 23
    ensures Before(Entry(i), Entry(i + 1))
  {
    match i
    case 20 => assert LessAt(Entry(20).name, Entry(21).name, 1);
    case 21 => assert LessAt(Entry(21).name, Entry(22).name, 1);
    case 22 => assert LessAt(Entry(22).name, Entry(23).name, 1);
  }

  lemma Ascend23(i: nat)
    requires 23 <= i < 26
    ensures Before(Entry(i), Entry(i + 1))
  {
    match i
    case 23 => assert LessAt(Entry(23).name, Entry(24).name, 0);
    case 24 => assert LessAt(Entry(24).name, Entry(25).name, 1);
    case 25 => assert LessAt(Entry(25).name, Entry(26).name, 8);
  }

  lemma Ascend26(i: nat)
    requires 26 <= i < 29
    ensures Before(Entry(i), Entry(i + 1))
  {
    match i
    case 26 => assert LessAt(Entry(26).name, Entry(27).name, 8);
    case 27 => assert LessAt(Entry(27).name, Entry(28).name, 9);
    case 28 => assert LessAt(Entry(28).name, Entry(29).name, 9);
  }

  lemma Ascend29(i: nat)
    requires 29 <= i < 32
    ensures Before(Entry(i), Entry(i + 1))
  {
    match i
    case 29 => assert LessAt(Entry(29).name, Entry(30).name, 8);
    case 30 => assert LessAt(Entry(30).name, Entry(31).name, 8);
    case 31 => assert LessAt(Entry(31).name, Entry(32).name, 2);
  }

  lemma Ascend32(i: nat)
    requires 32 <= i < 35
    ensures Before(Entry(i), Entry(i + 1))
  {
    match i
    case 32 => assert LessAt(Entry(32).name, Entry(33).name, 0);
    case 33 => assert LessAt(Entry(33).name, Entry(34).name, 0);
    case 34 => assert LessAt(Entry(34).name, Entry(35).name, 1);
  }

  lemma Ascend35(i: nat)
    requires 35 <= i < 38
    ensures Before(Entry(i), Entry(i + 1))
  {
    match i
    case 35 => assert LessAt(Entry(35).name, Entry(36).name, 3);
    case 36 => assert LessAt(Entry(36).name, Entry(37).name, 0);
    case 37 => assert LessAt(Entry(37).name, Entry(38).name, 0);
  }

  lemma Ascend38(i: nat)
    requires 38 <= i < 40
    ensures Before(Entry(i), Entry(i + 1))
  {
    match i
    case 38 => assert LessAt(Entry(38).name, Entry(39).name, 0);
    case 39 => assert LessAt(Entry(39).name, Entry(40).name, 4);
  }

  lemma Ascend40(i: nat)
    requires 40 <= i < 42
    ensures Before(Entry(i), Entry(i + 1))
  {
    match i
    case 40 => assert LessAt(Entry(40).name, Entry(41).name, 3);
    case 41 => assert LessAt(Entry(41).name, Entry(42).name, 3);
  }

  lemma Ascend42(i: nat)
    requires 42 <= i < 44
    ensures Before(Entry(i), Entry(i + 1))
  {
    match i
    case 42 => assert LessAt(Entry(42).name, Entry(43).name, 3);
    case 43 => assert LessAt(Entry(43).name, Entry(44).name, 0);
  }

  lemma Ascend44(i: nat)
    requires 44 <= i < 47
    ensures Before(Entry(i), Entry(i + 1))
  {
    match i
    case 44 => assert LessAt(Entry(44).name, Entry(45).name, 1);
    case 45 => assert LessAt(Entry(45).name, Entry(46).name, 1);
    case 46 => assert LessAt(Entry(46).name, Entry(47).name, 0);
  }

  lemma Ascend47(i: nat)
    requires 47 <= i < 49
    ensures Before(Entry(i), Entry(i + 1))
  {
    match i
    case 47 => assert LessAt(Entry(47).name, Entry(48).name, 0);
    case 48 => assert LessAt(Entry(48).name, Entry(49).name, 10);
  }

  lemma Ascend49(i: nat)
    requires 49 <= i < 51
    ensures Before(Entry(i), Entry(i + 1))
  {
    match i
    case 49 => assert LessAt(Entry(49).name, Entry(50).name, 0);
    case 50 => assert LessAt(Entry(50).name, Entry(51).name, 1);
  }

  lemma Ascend51(i: nat)
    requires 51 <= i < 53
    ensures Before(Entry(i), Entry(i + 1))
  {
    match i
    case 51 => assert LessAt(Entry(51).name, Entry(52).name, 3);
    case 52 => assert LessAt(Entry(52).name, Entry(53).name, 2);
  }

  lemma Ascend53(i: nat)
    requires 53 <= i < 55
    ensures Before(Entry(i), Entry(i + 1))
  {
    match i
    case 53 => assert LessAt(Entry(53).name, Entry(54).name, 0);
    case 54 => assert LessAt(Entry(54).name, Entry(55).name, 2);
  }

  lemma Ascend55(i: nat)
    requires 55 <= i < 57
    ensures Before(Entry(i), Entry(i + 1))
  {
    match i
    case 55 => assert LessAt(Entry(55).name, Entry(56).name, 1);
    case 56 => assert LessAt(Entry(56).name, Entry(57).name, 0);
  }

  lemma Ascend57(i: nat)
    requires 57 <= i < 59
    ensures Before(Entry(i), Entry(i + 1))
  {
    match i
    case 57 => assert LessAt(Entry(57).name, Entry(58).name, 0);
    case 58 => assert LessAt(Entry(58).name, Entry(59).name, 0);
  }

  lemma Ascend59(i: nat)
    requires 59 <= i < 61
    ensures Before(Entry(i), Entry(i + 1))
  {
    match i
    case 59 => assert LessAt(Entry(59).name, Entry(60).name, 1);
    case 60 => assert LessAt(Entry(60).name, Entry(61).name, 0);
  }

  /** Every entry comes before the next one, except that "accept" stands behind the names that it begins. */
  lemma EntriesAscend(i: nat)
    requires 1 <= i < 61 && i != 18
    ensures |ENTRIES| == 62 && Before(ENTRIES[i], ENTRIES[i + 1])
  {
    if i < 7 {
      Ascend1(i);
    } else if i < 14 {
      Ascend7(i);
    } else if i < 20 {
      Ascend14(i);
    } else if i < 23 {
      Ascend20(i);
    } else if i < 26 {
      Ascend23(i);
    } else if i < 29 {
      Ascend26(i);
    } else if i < 32 {
      Ascend29(i);
    } else if i < 35 {
      Ascend32(i);
    } else if i < 38 {
      Ascend35(i);
    } else if i < 40 {
      Ascend38(i);
    } else if i < 42 {
      Ascend40(i);
    } else if i < 44 {
      Ascend42(i);
    } else if i < 47 {
      Ascend44(i);
    } else if i < 49 {
      Ascend47(i);
    } else if i < 51 {
      Ascend49(i);
    } else if i < 53 {
      Ascend51(i);
    } else if i < 55 {
      Ascend53(i);
    } else if i < 57 {
      Ascend55(i);
    } else if i < 59 {
      Ascend57(i);
    } else {
      Ascend59(i);
    }
  }

  lemma AcceptIsLate()
    ensures |ENTRIES| == 62 && Before(ENTRIES[19], ENTRIES[15])
  {
    assert LessAt(Entry(19).name, Entry(15).name, 6);
  }

  /** The entries that have a value. */
  lemma EntriesWithValue(i: nat)
    requires 1 <= i <= 61
    ensures |ENTRIES| == 62 && (ENTRIES[i].value != [] <==> 2 <= i <= 14 || i == 16)
  {
  }

  /** What those values are. */
  lemma StaticValues()
    ensures |ENTRIES| == 62
    ensures ENTRIES[2] == Named(":method", "GET")
    ensures ENTRIES[3] == Named(":method", "POST")
    ensures ENTRIES[4] == Named(":path", "/")
    ensures ENTRIES[5] == Named(":path", "/index.html")
    ensures ENTRIES[6] == Named(":scheme", "http")
    ensures ENTRIES[7] == Named(":scheme", "https")
    ensures ENTRIES[8] == Named(":status", "200")
    ensures ENTRIES[9] == Named(":status", "204")
    ensures ENTRIES[10] == Named(":status", "206")
    ensures ENTRIES[11] == Named(":status", "304")
    ensures ENTRIES[12] == Named(":status", "400")
    ensures ENTRIES[13] == Named(":status", "404")
    ensures ENTRIES[14] == Named(":status", "500")
    ensures ENTRIES[16] == Named("accept-encoding", "gzip, deflate")
  {
  }
}
