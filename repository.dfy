/**
 The write side of the rolling index (`CustomMessageRepositoryImpl`): every write goes
 to the bucket index named after the current minute, `msg-HH-mm`, instead of the
 entity's own default index. The clock reading is a parameter.
 */
module MessageRepository {
  import opened Strings
  import opened LocalTimes
  import opened Store

  const IndexPrefix: string := "msg-"

  /**
   The bucket index for a time of day: the prefix, then the time truncated to minutes
   and rendered by `LocalTime.toString()`, with every `:` replaced by `-`.
   */
  function IndexName(now: LocalTime): string
  {
    IndexPrefix + ReplaceChar(ToString(TruncatedToMinutes(now)), ':', '-')
  }

  /** The bucket name is `msg-HH-mm`: nine characters, two zero-padded digits for hour and minute. */
  lemma IndexNameShape(now: LocalTime)
    ensures IndexName(now) == IndexPrefix + TwoDigits(now.hour) + "-" + TwoDigits(now.minute)
    ensures |IndexName(now)| == 9
    ensures IndexName(now)[3] == '-' && IndexName(now)[6] == '-'
    ensures forall i :: i in {4, 5, 7, 8} ==> IsDigit(IndexName(now)[i])
  {
    var t := TruncatedToMinutes(now);
    TruncatedToMinutesFields(now);
    ToStringWholeMinute(t);
    var rendered := TwoDigits(now.hour) + ":" + TwoDigits(now.minute);
    var replaced := ReplaceChar(rendered, ':', '-');
    assert replaced == TwoDigits(now.hour) + "-" + TwoDigits(now.minute) by {
      forall i | 0 <= i < 5
        ensures replaced[i] == (TwoDigits(now.hour) + "-" + TwoDigits(now.minute))[i]
      {
      }
    }
  }

  /** Every bucket name starts with the prefix `msg-`. */
  lemma IndexNameHasPrefix(now: LocalTime)
    ensures IndexPrefix <= IndexName(now)
  {
  }

  /** No bucket name contains a `:`. */
  lemma IndexNameHasNoColon(now: LocalTime)
    ensures ':' !in IndexName(now)
  {
  }

  /** Times within the same minute, whatever their seconds and nanos, go to the same bucket. */
  lemma SameMinuteSameIndex(t1: LocalTime, t2: LocalTime)
    requires t1.hour == t2.hour && t1.minute == t2.minute
    ensures IndexName(t1) == IndexName(t2)
  {
    TruncatedToMinutesFields(t1);
    TruncatedToMinutesFields(t2);
  }

  /** Two times share a bucket exactly when they agree on hour and minute. */
  lemma SameIndexIffSameMinute(t1: LocalTime, t2: LocalTime)
    ensures IndexName(t1) == IndexName(t2) <==> t1.hour == t2.hour && t1.minute == t2.minute
  {
    IndexNameShape(t1);
    IndexNameShape(t2);
    var a, b := IndexName(t1), IndexName(t2);
    if a == b {
      assert a[4..6] == TwoDigits(t1.hour) && b[4..6] == TwoDigits(t2.hour);
      assert a[7..9] == TwoDigits(t1.minute) && b[7..9] == TwoDigits(t2.minute);
      TwoDigitsInjective(t1.hour, t2.hour);
      TwoDigitsInjective(t1.minute, t2.minute);
    }
  }

  /** A write at 22:10:58 goes to `msg-22-10`. */
  lemma ExampleBucket()
    ensures IndexName(TimeOfDay(22, 10, 58, 0)) == "msg-22-10"
  {
    IndexNameShape(TimeOfDay(22, 10, 58, 0));
  }

  /**
   The truncation is what keeps a minute in one bucket: rendered without it, a time
   with whole non-zero seconds would get its own name, the bucket name plus `-ss`.
   */
  lemma UntruncatedNameAddsSeconds(t: LocalTime)
    requires t.second > 0 && t.nano == 0
    ensures IndexPrefix + ReplaceChar(ToString(t), ':', '-') == IndexName(t) + "-" + TwoDigits(t.second)
  {
    var rendered := TwoDigits(t.hour) + ":" + TwoDigits(t.minute) + ":" + TwoDigits(t.second);
    var expected := TwoDigits(t.hour) + "-" + TwoDigits(t.minute) + "-" + TwoDigits(t.second);
    assert ToString(t) == rendered by {
      ToStringWholeSecond(t);
    }
    assert ReplaceChar(rendered, ':', '-') == expected by {
      var replaced := ReplaceChar(rendered, ':', '-');
      forall i | 0 <= i < 8
        ensures replaced[i] == expected[i]
      {
      }
    }
    assert IndexName(t) == IndexPrefix + TwoDigits(t.hour) + "-" + TwoDigits(t.minute) by {
      IndexNameShape(t);
    }
  }

  /**
   `CustomMessageRepositoryImpl`: saves through the store's operations, into the
   bucket index of the current minute.
   */
  class CustomMessageRepository<D> {
    const operations: Operations<D>

    constructor (operations: Operations<D>)
      ensures this.operations == operations
    {
      this.operations := operations;
    }

    /** `save(entity)`: the entity goes to the current minute's bucket, appended after what it holds. */
    method Save(entity: D, now: LocalTime) returns (saved: D)
      modifies operations`indices
      ensures saved == entity
      ensures operations.indices == Appended(old(operations.indices), IndexName(now), [entity])
    {
      saved := operations.Save(entity, IndexName(now));
    }

    /** `saveAll(entities)`: all entities of one call go, in order, to one bucket. */
    method SaveAll(entities: seq<D>, now: LocalTime) returns (saved: seq<D>)
      modifies operations`indices
      ensures saved == entities
      ensures operations.indices == Appended(old(operations.indices), IndexName(now), entities)
    {
      saved := operations.SaveAll(entities, IndexName(now));
    }
  }
}
