/**
  The serialisation helpers shared by the fraud-entry drafts
  (`stringArrayToByteArray`, `byteArrayToStringArray`, `appendToEIDList`):
  a list of strings is stored as one string joined with a one-character
  separator, and the empty string stands for the empty list.
  The drafts differ only in the separator: '|' in fds/chaincode_fds and
  chaincode_fds, '$' in chaincode_sla.
*/
module IdList {
  import opened Text

  /** `stringArrayToByteArray`: join the list with the separator. */
  function Encode(list: seq<string>, sep: char): string {
    Join(list, sep)
  }

  /** `byteArrayToStringArray`: the empty string is the empty list, anything else is split. */
  function Decode(b: string, sep: char): (r: seq<string>)
    ensures b == "" <==> r == []
    ensures forall i :: 0 <= i < |r| ==> sep !in r[i]
  {
    if b == "" then [] else (SplitPiecesHaveNoSep(b, sep); Split(b, sep))
  }

  /** `appendToEIDList`: decode, append one id, encode. */
  function Append(b: string, id: string, sep: char): string {
    Encode(Decode(b, sep) + [id], sep)
  }

  /** A list is representable when no element holds the separator and it is not `[""]`. */
  predicate Representable(list: seq<string>, sep: char) {
    && (forall i :: 0 <= i < |list| ==> sep !in list[i])
    && list != [""]
  }

  /** Decoding an encoded representable list gives the list back. */
  lemma DecodeEncode(list: seq<string>, sep: char)
    requires Representable(list, sep)
    ensures Decode(Encode(list, sep), sep) == list
  {
    if |list| >= 1 {
      SplitJoin(list, sep);
      if |list| == 1 {
        assert list[0] != "";
      }
    }
  }

  /** Encoding a decoded string gives the string back: the codec is a bijection. */
  lemma EncodeDecode(b: string, sep: char)
    ensures Encode(Decode(b, sep), sep) == b
  {
    if b != "" {
      JoinSplit(b, sep);
    }
  }

  /** Every decoded list is representable. */
  lemma DecodeRepresentable(b: string, sep: char)
    ensures Representable(Decode(b, sep), sep)
  {
    if b != "" {
      var r := Decode(b, sep);
      if r == [""] {
        JoinSplit(b, sep);
        assert Join(r, sep) == "";
      }
    }
  }

  /**
    Appending an id that holds no separator extends the decoded list by that id,
    except for the one collision of the codec: the empty id on the empty list,
    which encodes to "" and so reads back as the empty list.
  */
  lemma AppendDecodes(b: string, id: string, sep: char)
    requires sep !in id
    ensures Decode(Append(b, id, sep), sep) == if b == "" && id == "" then [] else Decode(b, sep) + [id]
  {
    var l := Decode(b, sep) + [id];
    if b == "" && id == "" {
      assert l == [""];
    } else {
      assert forall i :: 0 <= i < |l| ==> sep !in l[i];
      if b != "" {
        assert |Decode(b, sep)| >= 1 && |l| >= 2;
      } else {
        assert l == [id] && id != "";
      }
      DecodeEncode(l, sep);
    }
  }
}
