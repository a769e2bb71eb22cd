/** The preflight's loops over a token decoder (backup/content.go). */
module JsonDecoder {

  import opened Wrappers
  import opened JsonPreflight

  class Decoder {
    const tokens: seq<Token>
    var pos: nat

    constructor (tokens: seq<Token>)
      ensures this.tokens == tokens && pos == 0
    {
      this.tokens := tokens;
      pos := 0;
    }

    ghost predicate Valid()
      reads this
    {
      pos <= |tokens|
    }

    ghost function Rest(): seq<Token>
      requires Valid()
      reads this
    {
      tokens[pos..]
    }

    /** Another element follows in the current array or object. */
    predicate More()
      requires Valid()
      reads this
    {
      pos < |tokens| && !tokens[pos].CloseArray? && !tokens[pos].CloseObject?
    }

    /** None at the end of the input or on a syntax error. */
    method Next() returns (token: Option<Token>)
      requires Valid()
      modifies this`pos
      ensures Valid() && token.Some? == (old(pos) < |tokens| && !tokens[old(pos)].Bad?)
      ensures token.Some? ==> token.value == tokens[old(pos)] && pos == old(pos) + 1 && old(Rest()) == [token.value] + Rest()
      ensures token.None? ==> pos == old(pos)
    {
      if pos == |tokens| || tokens[pos].Bad? {
        return None;
      }
      token := Some(tokens[pos]);
      pos := pos + 1;
    }

    /** consumeJSONValue, after its first token. */
    method ConsumeValue(value: Token) returns (ok: bool)
      requires Valid() && pos > 0 && tokens[pos - 1] == value
      modifies this`pos
      ensures Valid() && pos >= old(pos)
      ensures ok <==> ParseValue([value] + old(Rest())).Some?
      ensures ok ==> Rest() == ParseValue([value] + old(Rest())).value.rest
      decreases |tokens| - pos, 1
    {
      ghost var all := [value] + Rest();
      assert all[1..] == Rest();
      match value {
        case OpenObject => ok := ConsumeMembers();
        case OpenArray => ok := ConsumeItems();
        case Text(_) => ok := true;
        case Scalar => ok := true;
        case CloseArray => ok := false;
        case CloseObject => ok := false;
        case Bad => ok := false;
      }
    }

    method ConsumeItems() returns (ok: bool)
      requires Valid()
      modifies this`pos
      ensures Valid() && pos >= old(pos)
      ensures ok <==> ParseItems(old(Rest())).Some?
      ensures ok ==> Rest() == ParseItems(old(Rest())).value.rest
      decreases |tokens| - pos, 0
    {
      var token;
      while More()
        invariant Valid() && pos >= old(pos)
        invariant ParseItems(old(Rest())).Some? <==> ParseItems(Rest()).Some?
        invariant ParseItems(Rest()).Some? ==> ParseItems(Rest()).value.rest == ParseItems(old(Rest())).value.rest
        decreases |tokens| - pos
      {
        token := Next();
        if token.None? {
          return false;
        }
        ok := ConsumeValue(token.value);
        if !ok {
          return false;
        }
      }
      token := Next();
      ok := token == Some(CloseArray);
    }

    method ConsumeMembers() returns (ok: bool)
      requires Valid()
      modifies this`pos
      ensures Valid() && pos >= old(pos)
      ensures ok <==> ParseMembers(old(Rest()), {}).Some?
      ensures ok ==> Rest() == ParseMembers(old(Rest()), {}).value.rest
      decreases |tokens| - pos, 0
    {
      var seen: set<string> := {};
      var token;
      while More()
        invariant Valid() && pos >= old(pos)
        invariant ParseMembers(old(Rest()), {}).Some? <==> ParseMembers(Rest(), seen).Some?
        invariant ParseMembers(Rest(), seen).Some? ==> ParseMembers(Rest(), seen).value.rest == ParseMembers(old(Rest()), {}).value.rest
        decreases |tokens| - pos
      {
        ghost var before := Rest();
        token := Next();
        if token.None? || !token.value.Text? || token.value.s in seen {
          return false;
        }
        seen := seen + {token.value.s};
        assert before[1..] == Rest();
        token := Next();
        if token.None? {
          return false;
        }
        ok := ConsumeValue(token.value);
        if !ok {
          return false;
        }
      }
      token := Next();
      ok := token == Some(CloseObject);
    }

    /** countJSONArray: the elements of one top-level array, added to the total. */
    method CountArray(total: nat, maxRecords: int) returns (r: Option<(nat, nat)>)
      requires Valid()
      modifies this`pos
      ensures Valid() && pos >= old(pos)
      ensures var items := ParseItems(old(Rest()));
              && (r.Some? <==> items.Some? && (Length(items.value.value) == 0 || total + Length(items.value.value) <= maxRecords))
              && (r.Some? ==> r.value == (Length(items.value.value), total + Length(items.value.value)) && Rest() == items.value.rest)
    {
      var count, running := 0, total;
      var token;
      while More()
        invariant Valid() && pos >= old(pos) && running == total + count && (count > 0 ==> running <= maxRecords)
        invariant ParseItems(old(Rest())).Some? <==> ParseItems(Rest()).Some?
        invariant ParseItems(Rest()).Some? ==>
          && ParseItems(Rest()).value.rest == ParseItems(old(Rest())).value.rest
          && count + Length(ParseItems(Rest()).value.value) == Length(ParseItems(old(Rest())).value.value)
        decreases |tokens| - pos
      {
        if running >= maxRecords {
          return None;
        }
        token := Next();
        if token.None? {
          return None;
        }
        var ok := ConsumeValue(token.value);
        if !ok {
          return None;
        }
        count, running := count + 1, running + 1;
      }
      token := Next();
      if token != Some(CloseArray) {
        return None;
      }
      r := Some((count, running));
    }

    /** The fields of a root object. */
    method CountMembers(maxRecords: int) returns (r: Option<(map<string, nat>, nat)>)
      requires Valid()
      modifies this`pos
      ensures Valid() && pos >= old(pos)
      ensures var members := ParseMembers(old(Rest()), {});
              && (r.Some? <==> members.Some? && WithinLimit(MemberTotal(members.value.value), maxRecords))
              && (r.Some? ==> r.value == (MemberCounts(members.value.value), MemberTotal(members.value.value))
                              && Rest() == members.value.rest)
    {
      var seen: set<string> := {};
      var counts: map<string, nat> := map[];
      var total := 0;
      var token;
      while More()
        invariant Valid() && pos >= old(pos) && counts.Keys <= seen && WithinLimit(total, maxRecords)
        invariant ParseMembers(old(Rest()), {}).Some? <==> ParseMembers(Rest(), seen).Some?
        invariant ParseMembers(Rest(), seen).Some? ==>
          Ahead(ParseMembers(old(Rest()), {}).value, ParseMembers(Rest(), seen).value, counts, total)
        decreases |tokens| - pos
      {
        ghost var before := Rest();
        token := Next();
        if token.None? || !token.value.Text? || token.value.s in seen {
          return None;
        }
        var key := token.value.s;
        ghost var was, sum := counts, total;
        seen := seen + {key};
        assert before[1..] == Rest();
        ghost var value := Rest();
        token := Next();
        if token.None? {
          return None;
        }
        if token.value.OpenArray? {
          assert value[1..] == Rest();
          var counted := CountArray(total, maxRecords);
          if counted.None? {
            return None;
          }
          counts, total := counts[key := counted.value.0], counted.value.1;
        } else {
          var ok := ConsumeValue(token.value);
          if !ok {
            return None;
          }
        }
        if ParseMembers(Rest(), seen).Some? {
          AheadStep(ParseMembers(old(Rest()), {}).value, key, ParseValue(value).value.value, ParseMembers(Rest(), seen).value, was, sum);
        }
      }
      token := Next();
      if token != Some(CloseObject) {
        return None;
      }
      assert MemberCounts(NoMembers) + counts == counts;
      r := Some((counts, total));
    }

    /** topLevelJSONArraysContext, not cancelled. */
    method TopLevel(maxRecords: int) returns (r: Option<Summary>)
      requires Valid() && pos == 0
      modifies this`pos
      ensures Valid() && r == Preflight(tokens, maxRecords)
    {
      assert Rest() == tokens;
      var first := Next();
      if first.None? || (!first.value.OpenArray? && !first.value.OpenObject?) {
        return None;
      }
      assert tokens[1..] == Rest();
      var rootArray := first.value.OpenArray?;
      if rootArray {
        var counted := CountArray(0, maxRecords);
        if counted.None? {
          return None;
        }
        r := Some(Summary(map["" := counted.value.0], true, counted.value.1));
      } else {
        var counted := CountMembers(maxRecords);
        if counted.None? {
          return None;
        }
        r := Some(Summary(counted.value.0, false, counted.value.1));
      }
      if pos < |tokens| {
        r := None;
      }
    }
  }

  /** What has been counted and what the rest of the members holds make the whole. */
  predicate Ahead(all: Parsed<Members>, left: Parsed<Members>, counts: map<string, nat>, total: nat) {
    && left.rest == all.rest
    && MemberTotal(all.value) == total + MemberTotal(left.value)
    && MemberCounts(all.value) == MemberCounts(left.value) + counts
  }

  lemma AheadStep(all: Parsed<Members>, key: string, value: Tree, left: Parsed<Members>, counts: map<string, nat>, total: nat)
    requires key !in counts && Ahead(all, Parsed(Member(key, value, left.value), left.rest), counts, total)
    ensures if value.Array? then Ahead(all, left, counts[key := Length(value.items)], total + Length(value.items))
            else Ahead(all, left, counts, total)
  {
    if value.Array? {
      assert MemberCounts(left.value)[key := Length(value.items)] + counts == MemberCounts(left.value) + counts[key := Length(value.items)];
    }
  }
}
