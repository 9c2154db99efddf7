/** Tensor names and the pipeline layer each belongs to: 0 is the embedding, 1..=N the blocks, N+1 the output. */
module TensorNames {
  import opened Common
  import opened Decimal
  import opened Texts

  type Name = string

  const EMBED: Name := "token_embd.weight"
  const NORM: Name := "output_norm.weight"
  const OUTPUT: Name := "output.weight"

  predicate StartsWith(s: string, prefix: string) {
    prefix <= s
  }

  function BlockPrefix(block: nat): string {
    "blk." + Text(block) + "."
  }

  /** The tensor belongs to layer k of a model of n blocks. */
  predicate InLayer(n: nat, k: nat, name: Name) {
    if k == 0 then name == EMBED
    else if k <= n then StartsWith(name, BlockPrefix(k - 1))
    else k == n + 1 && (name == NORM || name == OUTPUT)
  }

  /** The block number in a name: `splitn(3, '.')` and `parse::<usize>()` on the second piece. */
  function BlockIndex(name: Name): Option<nat> {
    if !StartsWith(name, "blk.") then None else Parse(Split(name[4..], '.')[0], MAX_U64)
  }

  lemma FirstPiece(block: nat, name: Name)
    requires StartsWith(name, BlockPrefix(block))
    ensures StartsWith(name, "blk.") && Split(name[4..], '.')[0] == Text(block)
  {
    var rest := name[|BlockPrefix(block)|..];
    assert name == BlockPrefix(block) + rest;
    assert name[..4] == "blk.";
    assert name[4..] == Text(block) + ['.'] + rest;
    assert Free(Text(block), '.');
    SplitFirst(Text(block), '.', rest);
  }

  lemma IndexOfBlock(block: nat, name: Name)
    requires StartsWith(name, BlockPrefix(block))
    ensures BlockIndex(name) == if block <= MAX_U64 then Some(block) else None
  {
    FirstPiece(block, name);
    ParseOfText(block, MAX_U64);
  }

  /** The number stands between "blk." and the next dot, or the end of the name. */
  lemma BlockIndexMeans(name: Name, n: nat)
    ensures BlockIndex(name) == Some(n) <==>
      exists num :: Free(num, '.') && Parse(num, 0xFFFF_FFFF_FFFF_FFFF) == Some(n)
                    && (name == "blk." + num || "blk." + num + "." <= name)
  {
    if "blk." <= name {
      var rest := name[4..];
      assert name == "blk." + rest;
      forall num ensures Split(rest, '.')[0] == num <==>
          Free(num, '.') && (name == "blk." + num || "blk." + num + "." <= name)
      {
        FirstPieceIff(rest, '.', num);
        BehindPrefix("blk.", rest, num);
      }
    }
  }

  lemma BehindPrefix(prefix: string, rest: string, num: string)
    ensures prefix + rest == prefix + num <==> rest == num
    ensures prefix + num + "." <= prefix + rest <==> num + "." <= rest
  {
    assert (prefix + rest)[|prefix|..] == rest && (prefix + num)[|prefix|..] == num;
    assert prefix + num + "." == prefix + (num + ".");
    assert (prefix + (num + "."))[|prefix|..] == num + ".";
    if prefix + (num + ".") <= prefix + rest {
      assert forall i :: 0 <= i < |num + "."| ==>
        (num + ".")[i] == (prefix + (num + "."))[|prefix| + i] == (prefix + rest)[|prefix| + i] == rest[i];
    }
    if num + "." <= rest {
      assert rest == num + "." + rest[|num| + 1..];
      assert prefix + rest == prefix + (num + ".") + rest[|num| + 1..];
    }
  }

  /** A number with a leading zero reads as a block, and the name is no tensor of that block. */
  lemma PaddedNumber()
    ensures BlockIndex("blk.00.w") == Some(0) && !StartsWith("blk.00.w", BlockPrefix(0))
  {
    var name := "blk.00.w";
    assert name[4..] == "00" + ['.'] + "w";
    assert Free("00", '.');
    SplitFirst("00", '.', "w");
    assert "00"[..1] == "0" && "0"[..0] == "";
    assert BlockPrefix(0)[5] == '.' && name[5] == '0';
  }

  /** Only blocks have an index: "blk.1." is not a prefix of "blk.10.", nor of an embedding or output name. */
  lemma OneLayer(n: nat, j: nat, k: nat, name: Name)
    requires InLayer(n, j, name) && InLayer(n, k, name)
    ensures j == k
  {
    if 1 <= j <= n {
      FirstPiece(j - 1, name);
      assert name[0] == 'b';
    }
    if 1 <= k <= n {
      FirstPiece(k - 1, name);
      assert name[0] == 'b';
    }
    if 1 <= j <= n && 1 <= k <= n {
      TextIsInjective(j - 1, k - 1);
    }
  }

  lemma NotABlock(name: Name)
    requires name == EMBED || name == NORM || name == OUTPUT
    ensures BlockIndex(name).None?
  {
    assert name[0] != 'b';
  }
}
